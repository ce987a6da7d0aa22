/** The perf collector's maps, updated in place on every scrape (pkg/collector/perf.go). */
module PerfCollectors {
  import opened PerfConservation
  import opened PerfCounters
  import opened PerfInputs
  import opened Seqs

  class PerfCollector {
    var perfHwProfilers: map<int, nat>
    var numOpened: nat
    var lastRawHwCounters: map<int, Profile>
    var lastCgroupHwCounters: map<string, Counters>
    ghost var lives: map<nat, Life>
    ghost var hist: seq<seq<Cgroup>>

    ghost function State(): State
      reads this
    {
      PerfCounters.State(perfHwProfilers, numOpened, lastRawHwCounters, lastCgroupHwCounters, lives)
    }

    constructor ()
      ensures State() == START && hist == [] && Holds(State(), hist)
    {
      hist := [];
      perfHwProfilers, numOpened, lastRawHwCounters, lastCgroupHwCounters, lives := map[], 0, map[], map[], map[];
    }

    /** openProfilers: a profiler for every listed process that has none, where the kernel grants one. */
    method OpenProfilers(cgroups: seq<Cgroup>) returns (activePIDs: seq<int>)
      modifies this
      ensures State() == OpenAll(old(State()), cgroups)
      ensures activePIDs == ActivePids(cgroups)
    {
      activePIDs := [];
      for i := 0 to |cgroups|
        invariant State() == OpenAll(old(State()), cgroups[..i])
        invariant activePIDs == ActivePids(cgroups[..i])
      {
        assert cgroups[..i+1][..i] == cgroups[..i];
        var pids := OpenProcesses(cgroups[i].uuid, cgroups[i].procs);
        activePIDs := activePIDs + pids;
      }
      PrefixAll(cgroups);
    }

    /** The processes of one cgroup. */
    method OpenProcesses(uuid: string, procs: seq<Proc>) returns (pids: seq<int>)
      modifies this
      ensures State() == OpenProcs(old(State()), uuid, procs)
      ensures pids == ProcPids(procs)
    {
      pids := [];
      for k := 0 to |procs|
        invariant State() == OpenProcs(old(State()), uuid, procs[..k])
        invariant pids == ProcPids(procs[..k])
      {
        PrefixStep(procs, k);
        assert procs[..k+1][..k] == procs[..k];
        var pid := procs[k].pid;
        pids := pids + [pid];
        if pid !in perfHwProfilers && procs[k].opens {
          perfHwProfilers := perfHwProfilers[pid := numOpened];
          lives := lives[numOpened := Life(uuid, map[])];
          numOpened := numOpened + 1;
        }
      }
      PrefixAll(procs);
    }

    /** closeProfilers: no profiler is kept for a process that is not listed. */
    method CloseProfilers(activePIDs: seq<int>)
      modifies this
      ensures State() == Close(old(State()), activePIDs)
    {
      perfHwProfilers := Evict(perfHwProfilers, activePIDs);
    }

    /** updateStateMaps: evict what is not active, then allocate what is new. */
    method UpdateStateMaps(activePIDs: seq<int>, activeCgroupIDs: seq<string>)
      modifies this
      ensures State() == Refresh(old(State()), activePIDs, activeCgroupIDs)
    {
      lastRawHwCounters := Refreshed(lastRawHwCounters, activePIDs);
      lastCgroupHwCounters := Refreshed(lastCgroupHwCounters, activeCgroupIDs);
      lives := map i | i in lives && lives[i].uuid in activeCgroupIDs :: lives[i];
    }

    static method Refreshed<K(==, !new), V, W>(m: map<K, map<V, W>>, active: seq<K>) returns (r: map<K, map<V, W>>)
      ensures r == map k | k in active :: if k in m then m[k] else map[]
    {
      r := Evict(m, active);
      r := Allocate(r, active);
    }

    /** Some key still to be visited: the runtime walks maps in any order. */
    static method Pick<K(!new)>(todo: set<K>) returns (k: K)
      requires todo != {}
      ensures k in todo
    {
      k :| k in todo;
    }

    /** Delete the entries of one map whose keys are not active. */
    static method Evict<K(==, !new), V>(m: map<K, V>, active: seq<K>) returns (r: map<K, V>)
      ensures r == map k | k in m && k in active :: m[k]
    {
      r := m;
      var todo := m.Keys;
      while todo != {}
        invariant r.Keys <= m.Keys && forall k :: k in r ==> r[k] == m[k]
        invariant forall k :: k in m && (k in active || k in todo) ==> k in r
        invariant forall k :: k in r && k !in todo ==> k in active
        decreases todo
      {
        var k := Pick(todo);
        todo := todo - {k};
        if k !in active {
          r := r - {k};
        }
      }
    }

    /** Give every active key without an entry an empty one. */
    static method Allocate<K(==, !new), V, W>(m: map<K, map<V, W>>, active: seq<K>) returns (r: map<K, map<V, W>>)
      ensures forall k :: k in r <==> k in m || k in active
      ensures forall k :: k in r ==> r[k] == if k in m then m[k] else map[]
    {
      r := m;
      for i := 0 to |active|
        invariant forall k :: k in r <==> k in m || k in active[..i]
        invariant forall k :: k in r ==> r[k] == if k in m then m[k] else map[]
      {
        PrefixStep(active, i);
        if active[i] !in r {
          r := r[active[i] := map[]];
        }
      }
      PrefixAll(active);
    }

    /** updateHwCounter: remember the raw value and return what it adds. */
    method UpdateHwCounter(pid: int, metric: Metric, profileValue: ProfileValue) returns (scaledValue: int)
      requires pid in lastRawHwCounters
      modifies this`lastRawHwCounters
      ensures scaledValue == ScaleCounter(ValueAt(old(lastRawHwCounters)[pid], metric), profileValue)
      ensures lastRawHwCounters == old(lastRawHwCounters)[pid := old(lastRawHwCounters)[pid][metric := profileValue]]
    {
      scaledValue := ScaleCounter(ValueAt(lastRawHwCounters[pid], metric), profileValue);
      lastRawHwCounters := lastRawHwCounters[pid := lastRawHwCounters[pid][metric := profileValue]];
    }

    /** One metric of one process profile; the counters and raw values before the first metric are for the proof. */
    method AddHwMetric(pid: int, hwProfile: Profile, i: nat, counters: Counters, ghost start: Counters,
        ghost raw: map<int, Profile>)
      returns (updated: Counters)
      requires i < |HW_METRICS| && pid in raw
      requires lastRawHwCounters == raw[pid := raw[pid] + Visited(hwProfile, i)]
      requires counters == AddMetrics(start, raw[pid], hwProfile, i)
      modifies this`lastRawHwCounters
      ensures lastRawHwCounters == raw[pid := raw[pid] + Visited(hwProfile, i + 1)]
      ensures updated == AddMetrics(start, raw[pid], hwProfile, i + 1)
    {
      var metric := HW_METRICS[i];
      updated := counters;
      NextMetric(raw, pid, raw[pid], hwProfile, i);
      if metric in hwProfile {
        var scaled := UpdateHwCounter(pid, metric, hwProfile[metric]);
        updated := updated[metric := Counter(updated, metric) + scaled];
      }
    }

    /** The counters of one process profile, metric by metric. */
    method AddHwProfile(pid: int, hwProfile: Profile, counters: Counters) returns (updated: Counters)
      requires pid in lastRawHwCounters
      modifies this`lastRawHwCounters
      ensures lastRawHwCounters == old(lastRawHwCounters)[pid := old(lastRawHwCounters)[pid] + hwProfile]
      ensures updated == AddProfile(counters, old(lastRawHwCounters)[pid], hwProfile)
    {
      updated := counters;
      ghost var last := lastRawHwCounters[pid];
      NoMetrics(lastRawHwCounters, pid, hwProfile);
      for i := 0 to |HW_METRICS|
        invariant lastRawHwCounters == old(lastRawHwCounters)[pid := last + Visited(hwProfile, i)]
        invariant updated == AddMetrics(counters, last, hwProfile, i)
      {
        updated := AddHwMetric(pid, hwProfile, i, updated, counters, old(lastRawHwCounters));
      }
      VisitedAll(hwProfile);
    }

    /** The metrics among the first i that the profile has. */
    ghost static function Visited(p: Profile, i: nat): Profile
      requires i <= |HW_METRICS|
    {
      map m | m in p && m in HW_METRICS[..i] :: p[m]
    }

    static lemma {:induction false} NoMetrics(raw: map<int, Profile>, pid: int, p: Profile)
      requires pid in raw
      ensures raw[pid := raw[pid] + Visited(p, 0)] == raw
    {
      assert raw[pid] + Visited(p, 0) == raw[pid];
      UpdateTwice(raw, pid, raw[pid], raw[pid]);
    }

    static lemma {:induction false} VisitedAll(p: Profile)
      ensures Visited(p, |HW_METRICS|) == p
    {
      forall m | m in p ensures m in HW_METRICS[..|HW_METRICS|] {
        AllMetrics(m);
        PrefixAll(HW_METRICS);
      }
    }

    static lemma {:induction false} UpdateTwice<K(!new), V>(m: map<K, V>, k: K, a: V, b: V)
      ensures m[k := a][k := b] == m[k := b]
      ensures k in m && m[k] == a ==> m[k := a] == m
    {
    }

    static lemma {:induction false} VisitNext(p: Profile, i: nat)
      requires i < |HW_METRICS|
      ensures HW_METRICS[i] !in Visited(p, i)
      ensures Visited(p, i + 1) == if HW_METRICS[i] in p then Visited(p, i)[HW_METRICS[i] := p[HW_METRICS[i]]]
        else Visited(p, i)
    {
      PrefixStep(HW_METRICS, i);
      assert HW_METRICS[i] !in HW_METRICS[..i];
    }

    static lemma {:induction false} MergeMetric(last: Profile, read: Profile, m: Metric, v: ProfileValue)
      ensures last + read[m := v] == (last + read)[m := v]
      ensures m !in read ==> ValueAt(last + read, m) == ValueAt(last, m)
    {
    }

    /** Remembering one more metric of the profile. */
    static lemma {:induction false} NextMetric(raw: map<int, Profile>, pid: int, last: Profile, p: Profile, i: nat)
      requires i < |HW_METRICS|
      ensures var m, a, b := HW_METRICS[i], last + Visited(p, i), last + Visited(p, i + 1);
        && ValueAt(a, m) == ValueAt(last, m)
        && (m in p ==> raw[pid := a][pid := a[m := p[m]]] == raw[pid := b])
        && (m !in p ==> a == b)
    {
      var m, read := HW_METRICS[i], Visited(p, i);
      VisitNext(p, i);
      if m in p {
        MergeMetric(last, read, m, p[m]);
        UpdateTwice(raw, pid, last + read, last + read[m := p[m]]);
      } else {
        assert ValueAt(last + read, m) == ValueAt(last, m);
      }
    }

    /** updateHardwareCounters: read the profilers of one cgroup and add what is new to its totals. */
    method UpdateHardwareCounters(c: Cgroup) returns (ghost order: seq<int>)
      requires c.uuid in lastCgroupHwCounters && perfHwProfilers.Keys <= lastRawHwCounters.Keys
      modifies this
      ensures Walks(order, Profiles(old(perfHwProfilers), c.procs).Keys)
      ensures forall i :: 0 <= i < |order| ==> order[i] in Profiles(old(perfHwProfilers), c.procs)
      ensures State() == ReadPids(old(State()), c.uuid, Profiles(old(perfHwProfilers), c.procs), order)
    {
      var hwProfiles: map<int, Profile> := map[];
      for i := 0 to |c.procs|
        invariant hwProfiles == Profiles(perfHwProfilers, c.procs[..i])
        invariant forall p :: p in hwProfiles ==> p in perfHwProfilers
      {
        assert c.procs[..i+1][..i] == c.procs[..i];
        var pid := c.procs[i].pid;
        if pid in perfHwProfilers {
          if c.procs[i].read.None? {
            continue;
          }
          hwProfiles := hwProfiles[pid := c.procs[i].read.value];
        }
      }
      PrefixAll(c.procs);
      order := AggHardwareCounters(c.uuid, hwProfiles);
    }

    /** aggHardwareCounters: walk the profiles in whatever order. */
    method AggHardwareCounters(uuid: string, hwProfiles: map<int, Profile>) returns (ghost order: seq<int>)
      requires uuid in lastCgroupHwCounters
      requires forall p :: p in hwProfiles ==> p in lastRawHwCounters
      modifies this
      ensures Walks(order, hwProfiles.Keys)
      ensures forall i :: 0 <= i < |order| ==> order[i] in hwProfiles
      ensures State() == ReadPids(old(State()), uuid, hwProfiles, order)
    {
      order := [];
      var todo := hwProfiles.Keys;
      while todo != {}
        invariant todo <= hwProfiles.Keys && Walks(order, hwProfiles.Keys - todo)
        invariant forall i :: 0 <= i < |order| ==> order[i] in hwProfiles
        invariant forall p :: p in hwProfiles ==> p in lastRawHwCounters
        invariant State() == ReadPids(old(State()), uuid, hwProfiles, order)
        decreases todo
      {
        var pid := Pick(todo);
        todo := todo - {pid};
        ghost var before := State();
        var updated := AddHwProfile(pid, hwProfiles[pid], lastCgroupHwCounters[uuid]);
        lastCgroupHwCounters := lastCgroupHwCounters[uuid := updated];
        lives := RecordRead(lives, perfHwProfilers, pid, hwProfiles[pid]);
        assert State() == ReadPid(before, uuid, pid, hwProfiles[pid]);
        WalkNext(old(State()), uuid, hwProfiles, order, pid, todo);
        order := order + [pid];
      }
    }

    static lemma {:induction false} WalkNext(s: State, uuid: string, profiles: map<int, Profile>, order: seq<int>,
        pid: int, todo: set<int>)
      requires uuid in s.totals && pid in profiles && pid !in todo && todo <= profiles.Keys
      requires forall i :: 0 <= i < |order| ==> order[i] in profiles
      requires Walks(order, profiles.Keys - todo - {pid})
      ensures Walks(order + [pid], profiles.Keys - todo)
      ensures forall i :: 0 <= i < |order + [pid]| ==> (order + [pid])[i] in profiles
      ensures ReadPids(s, uuid, profiles, order + [pid])
        == ReadPid(ReadPids(s, uuid, profiles, order), uuid, pid, profiles[pid])
    {
      assert (order + [pid])[..|order|] == order;
    }

    /** One scrape. */
    method Update(cgroups: seq<Cgroup>) returns (ghost orders: seq<seq<int>>)
      modifies this
      ensures cgroups != [] ==>
        ValidOrders(old(State()), cgroups, orders) && State() == Scrape(old(State()), cgroups, orders)
      ensures cgroups == [] ==> State() == old(State())
      ensures cgroups != [] && old(Inv(State())) && CleanScrape(old(State()), cgroups, orders) ==> Inv(State())
      ensures hist == old(hist) + [cgroups]
      ensures old(Holds(State(), hist)) && UniquePids(cgroups) ==> Holds(State(), hist)
      ensures UniquePids(cgroups) ==> ProcessesHeld(old(State()), State(), cgroups)
    {
      orders := [];
      ghost var before := hist;
      if |cgroups| > 0 {
        var activeCgroupIDs := ActiveUuids(cgroups);
        var activePIDs := OpenProfilers(cgroups);
        CloseProfilers(activePIDs);
        UpdateStateMaps(activePIDs, activeCgroupIDs);
        UuidsActive(old(State()), cgroups);
        orders := UpdateCounters(cgroups);
        if old(Inv(State())) && CleanScrape(old(State()), cgroups, orders) {
          ScrapeKeeps(old(State()), cgroups, orders);
        }
      }
      hist := before + [cgroups];
      AfterScrape(old(State()), before, cgroups, orders);
    }

    /** The loop over the cgroups. */
    method UpdateCounters(cgroups: seq<Cgroup>) returns (ghost orders: seq<seq<int>>)
      requires perfHwProfilers.Keys <= lastRawHwCounters.Keys
      requires forall i :: 0 <= i < |cgroups| ==> cgroups[i].uuid in lastCgroupHwCounters
      modifies this
      ensures WalksAll(old(State()), cgroups, orders) && State() == ReadCgroups(old(State()), cgroups, orders)
    {
      orders := [];
      ghost var s := State();
      for i := 0 to |cgroups|
        invariant WalksAll(s, cgroups[..i], orders)
        invariant State() == ReadCgroups(s, cgroups[..i], orders)
        invariant perfHwProfilers == s.profilers && perfHwProfilers.Keys <= lastRawHwCounters.Keys
      {
        ghost var order := UpdateHardwareCounters(cgroups[i]);
        ReadNext(s, cgroups, orders, i, order);
        orders := orders + [order];
      }
      PrefixAll(cgroups);
    }
  }

  ghost predicate ProcessesHeld(s: State, t: State, cgroups: seq<Cgroup>)
  {
    forall a, i :: 0 <= a < |cgroups| && 0 <= i < |cgroups[a].procs| ==> ProcessHeld(s, t, cgroups[a].procs[i])
  }

  lemma {:induction false} AfterScrape(s: State, hist: seq<seq<Cgroup>>, cgroups: seq<Cgroup>, orders: seq<seq<int>>)
    requires ValidOrders(s, cgroups, orders)
    ensures Holds(s, hist) && UniquePids(cgroups) ==> Holds(Scrape(s, cgroups, orders), hist + [cgroups])
    ensures UniquePids(cgroups) ==> ProcessesHeld(s, Scrape(s, cgroups, orders), cgroups)
  {
    if UniquePids(cgroups) {
      if Holds(s, hist) {
        ScrapeHolds(s, hist, cgroups, orders);
      }
      forall a, i | 0 <= a < |cgroups| && 0 <= i < |cgroups[a].procs|
        ensures ProcessHeld(s, Scrape(s, cgroups, orders), cgroups[a].procs[i])
      {
        OneScrape(s, cgroups, orders, a, i);
      }
    }
  }

  lemma {:induction false} ReadNext(s: State, cgroups: seq<Cgroup>, orders: seq<seq<int>>, i: nat, order: seq<int>)
    requires i < |cgroups| && WalksAll(s, cgroups[..i], orders) && s.profilers.Keys <= s.lastRaw.Keys
    requires forall k :: 0 <= k < |cgroups| ==> cgroups[k].uuid in s.totals
    requires Walks(order, Profiles(s.profilers, cgroups[i].procs).Keys)
    requires forall k :: 0 <= k < |order| ==> order[k] in Profiles(s.profilers, cgroups[i].procs)
    ensures WalksAll(s, cgroups[..i+1], orders + [order])
    ensures ReadCgroups(s, cgroups[..i+1], orders + [order])
      == ReadPids(ReadCgroups(s, cgroups[..i], orders), cgroups[i].uuid, Profiles(s.profilers, cgroups[i].procs), order)
    ensures ReadCgroups(s, cgroups[..i+1], orders + [order]).lastRaw.Keys == s.lastRaw.Keys
  {
    var cs, os := cgroups[..i+1], orders + [order];
    assert cs[..i] == cgroups[..i] && os[..i] == orders;
    forall k | 0 <= k < |cs|
      ensures Walks(os[k], Profiles(s.profilers, cs[k].procs).Keys)
    {
      if k < i {
        assert os[k] == orders[k] && cs[k] == cgroups[..i][k];
      }
    }
    ReadCgroupsKeys(s, cs, os);
  }
}
