/** What the perf collector holds, from what the kernel answered on every scrape (pkg/collector/perf.go). */
module PerfInputs {
  import opened Options
  import opened PerfConservation
  import opened PerfCounters
  import opened Sums

  /* ---- What a scrape lists ---- */

  /** Process i of cgroup a is this one. */
  predicate At(cgroups: seq<Cgroup>, a: int, i: int, pid: int)
  {
    0 <= a < |cgroups| && 0 <= i < |cgroups[a].procs| && cgroups[a].procs[i].pid == pid
  }

  ghost predicate Listed(cgroups: seq<Cgroup>, pid: int)
  {
    exists a, i :: At(cgroups, a, i, pid)
  }

  /** A process is in one cgroup and listed there once. */
  ghost predicate UniquePids(cgroups: seq<Cgroup>)
  {
    forall a, i, b, j, pid :: At(cgroups, a, i, pid) && At(cgroups, b, j, pid) ==> a == b && i == j
  }

  /** The kernel grants a profiler for the process. */
  ghost predicate Opens(cgroups: seq<Cgroup>, pid: int)
  {
    exists a, i :: At(cgroups, a, i, pid) && cgroups[a].procs[i].opens
  }

  /** What reading the process gives, if it is listed and the read does not fail. */
  ghost function ReadNow(cgroups: seq<Cgroup>, pid: int): Option<Profile>
  {
    if Listed(cgroups, pid) then
      var a, i :| At(cgroups, a, i, pid);
      cgroups[a].procs[i].read
    else None
  }

  lemma {:induction false} ReadIs(cgroups: seq<Cgroup>, a: int, i: int, pid: int)
    requires UniquePids(cgroups) && At(cgroups, a, i, pid)
    ensures ReadNow(cgroups, pid) == cgroups[a].procs[i].read
  {
    assert Listed(cgroups, pid);
    var b, j :| At(cgroups, b, j, pid) && ReadNow(cgroups, pid) == cgroups[b].procs[j].read;
    assert a == b && i == j;
  }

  ghost predicate UuidListed(cgroups: seq<Cgroup>, uuid: string)
  {
    exists a :: 0 <= a < |cgroups| && cgroups[a].uuid == uuid
  }

  function Pids(procs: seq<Proc>): set<int>
  {
    set i | 0 <= i < |procs| :: procs[i].pid
  }

  /** The processes of a cgroup. */
  function PidsOf(cgroups: seq<Cgroup>, uuid: string): set<int>
  {
    if cgroups == [] then {}
    else
      var c := cgroups[|cgroups|-1];
      PidsOf(cgroups[..|cgroups|-1], uuid) + if c.uuid == uuid then Pids(c.procs) else {}
  }

  lemma {:induction false} PidsOfAre(cgroups: seq<Cgroup>, uuid: string, pid: int)
    ensures pid in PidsOf(cgroups, uuid) <==> exists a, i :: At(cgroups, a, i, pid) && cgroups[a].uuid == uuid
  {
    if cgroups != [] {
      var n := |cgroups| - 1;
      PidsOfAre(cgroups[..n], uuid, pid);
      if pid in PidsOf(cgroups[..n], uuid) {
        var a, i :| At(cgroups[..n], a, i, pid) && cgroups[..n][a].uuid == uuid;
        assert At(cgroups, a, i, pid) && cgroups[a].uuid == uuid;
      }
      if pid in Pids(cgroups[n].procs) && cgroups[n].uuid == uuid {
        var i :| 0 <= i < |cgroups[n].procs| && cgroups[n].procs[i].pid == pid;
        assert At(cgroups, n, i, pid) && cgroups[n].uuid == uuid;
      }
      if a, i :| At(cgroups, a, i, pid) && cgroups[a].uuid == uuid {
        if a < n {
          assert At(cgroups[..n], a, i, pid) && cgroups[..n][a].uuid == uuid;
        } else {
          assert cgroups[n].procs[i].pid in Pids(cgroups[n].procs);
        }
      }
    }
  }

  /* ---- What the collector should hold, from the scrapes so far ---- */

  /** A process has a profiler from the scrape that grants one to the first scrape that does not list it. */
  ghost predicate HasProfiler(hist: seq<seq<Cgroup>>, pid: int)
  {
    hist != [] &&
      var front, now := hist[..|hist|-1], hist[|hist|-1];
      if now == [] then HasProfiler(front, pid)
      else Listed(now, pid) && (HasProfiler(front, pid) || Opens(now, pid))
  }

  /** A read counts when it succeeds and the process has a profiler. */
  ghost predicate ReadCounts(hist: seq<seq<Cgroup>>, pid: int, m: Metric)
    requires hist != []
  {
    var now := hist[|hist|-1];
    HasProfiler(hist, pid) && ReadNow(now, pid).Some? && m in ReadNow(now, pid).value
  }

  /** The last value read from a process since it was first listed. */
  ghost function LastValue(hist: seq<seq<Cgroup>>, pid: int, m: Metric): ProfileValue
  {
    if hist == [] then ProfileValue(0, 0, 0)
    else
      var front, now := hist[..|hist|-1], hist[|hist|-1];
      if now == [] then LastValue(front, pid, m)
      else if !Listed(now, pid) then ProfileValue(0, 0, 0)
      else if ReadCounts(hist, pid, m) then ReadNow(now, pid).value[m]
      else LastValue(front, pid, m)
  }

  /** What the last scrape adds for one process. */
  ghost function Gain(hist: seq<seq<Cgroup>>, pid: int, m: Metric): int
    requires hist != []
  {
    if ReadCounts(hist, pid, m)
    then ScaleCounter(LastValue(hist[..|hist|-1], pid, m), ReadNow(hist[|hist|-1], pid).value[m]) else 0
  }

  /** The counter of a cgroup: what all its processes have added since it was first listed. */
  ghost function Charge(hist: seq<seq<Cgroup>>, uuid: string, m: Metric): int
  {
    if hist == [] then 0
    else
      var front, now := hist[..|hist|-1], hist[|hist|-1];
      if now == [] then Charge(front, uuid, m)
      else if !UuidListed(now, uuid) then 0
      else Charge(front, uuid, m) + Sum(PidsOf(now, uuid), pid => Gain(hist, pid, m))
  }

  /** The collector holds this. */
  ghost predicate Holds(s: State, hist: seq<seq<Cgroup>>)
  {
    && (forall p :: p in s.profilers <==> HasProfiler(hist, p))
    && (forall p, m :: ValueAt(Raw(s, p), m) == LastValue(hist, p, m))
    && (forall u, m :: Total(s, u, m) == Charge(hist, u, m))
  }

  /* ---- Opening, closing and evicting ---- */

  lemma {:induction false} ProcsOpened(s: State, uuid: string, procs: seq<Proc>, p: int)
    ensures p in OpenProcs(s, uuid, procs).profilers <==>
      p in s.profilers || exists i :: 0 <= i < |procs| && procs[i].pid == p && procs[i].opens
  {
    if procs != [] {
      var n := |procs| - 1;
      ProcsOpened(s, uuid, procs[..n], p);
      assert procs == procs[..n] + [procs[n]];
    }
  }

  lemma {:induction false} AllOpened(s: State, cgroups: seq<Cgroup>, p: int)
    ensures p in OpenAll(s, cgroups).profilers <==> p in s.profilers || Opens(cgroups, p)
  {
    if cgroups != [] {
      var n := |cgroups| - 1;
      AllOpened(s, cgroups[..n], p);
      ProcsOpened(OpenAll(s, cgroups[..n]), cgroups[n].uuid, cgroups[n].procs, p);
      OpensNext(cgroups, p);
    }
  }

  lemma {:induction false} OpensNext(cgroups: seq<Cgroup>, p: int)
    requires cgroups != []
    ensures var n := |cgroups| - 1;
      Opens(cgroups, p) <==>
        (Opens(cgroups[..n], p)
          || exists i :: 0 <= i < |cgroups[n].procs| && cgroups[n].procs[i].pid == p && cgroups[n].procs[i].opens)
  {
    var n := |cgroups| - 1;
    if a, i :| At(cgroups, a, i, p) && cgroups[a].procs[i].opens {
      if a < n {
        assert At(cgroups[..n], a, i, p) && cgroups[..n][a].procs[i].opens;
      }
    }
    if a, i :| At(cgroups[..n], a, i, p) && cgroups[..n][a].procs[i].opens {
      assert At(cgroups, a, i, p) && cgroups[a].procs[i].opens;
    }
    if i :| 0 <= i < |cgroups[n].procs| && cgroups[n].procs[i].pid == p && cgroups[n].procs[i].opens {
      assert At(cgroups, n, i, p);
    }
  }

  lemma {:induction false} ActiveListed(cgroups: seq<Cgroup>, p: int)
    ensures p in ActivePids(cgroups) <==> Listed(cgroups, p)
  {
    PidsListed(cgroups, p);
    if a, i :| At(cgroups, a, i, p) {
      assert Lists(cgroups[a], p);
    }
    if a :| 0 <= a < |cgroups| && Lists(cgroups[a], p) {
      var i :| 0 <= i < |cgroups[a].procs| && cgroups[a].procs[i].pid == p;
      assert At(cgroups, a, i, p);
    }
  }

  lemma {:induction false} ActiveUuid(cgroups: seq<Cgroup>, u: string)
    ensures u in ActiveUuids(cgroups) <==> UuidListed(cgroups, u)
  {
    var us := ActiveUuids(cgroups);
    if a :| 0 <= a < |cgroups| && cgroups[a].uuid == u {
      assert us[a] == u;
    }
    if u in us {
      var a :| 0 <= a < |us| && us[a] == u;
      assert cgroups[a].uuid == u;
    }
  }

  /** The state that the reads start from. */
  lemma {:induction false} PreparedIs(s: State, cgroups: seq<Cgroup>)
    ensures var t := Prepared(s, cgroups);
      && (forall p :: p in t.profilers <==> Listed(cgroups, p) && (p in s.profilers || Opens(cgroups, p)))
      && (forall p :: Raw(t, p) == if Listed(cgroups, p) then Raw(s, p) else map[])
      && (forall u, m :: Total(t, u, m) == if UuidListed(cgroups, u) then Total(s, u, m) else 0)
  {
    OpenAllFrame(s, cgroups);
    forall p
      ensures p in Prepared(s, cgroups).profilers <==> Listed(cgroups, p) && (p in s.profilers || Opens(cgroups, p))
      ensures Raw(Prepared(s, cgroups), p) == if Listed(cgroups, p) then Raw(s, p) else map[]
    {
      AllOpened(s, cgroups, p);
      ActiveListed(cgroups, p);
    }
    forall u, m
      ensures Total(Prepared(s, cgroups), u, m) == if UuidListed(cgroups, u) then Total(s, u, m) else 0
    {
      ActiveUuid(cgroups, u);
    }
  }

  /* ---- Reading ---- */

  /** What reading adds for one process to its cgroup's counter. */
  function Delta(last: Profile, p: Profile, m: Metric): int
  {
    if m in p then ScaleCounter(ValueAt(last, m), p[m]) else 0
  }

  ghost function DeltaOf(s: State, profiles: map<int, Profile>, pid: int, m: Metric): int
  {
    if pid in profiles then Delta(Raw(s, pid), profiles[pid], m) else 0
  }

  function Elements(order: seq<int>): set<int>
  {
    set p | p in order
  }

  /** One cgroup's reads, in whatever order: what is remembered. */
  lemma {:induction false} PidsRaw(s: State, uuid: string, profiles: map<int, Profile>, order: seq<int>, p: int)
    requires uuid in s.totals && forall i :: 0 <= i < |order| ==> order[i] in profiles
    requires forall i, j :: 0 <= i < j < |order| ==> order[i] != order[j]
    ensures Raw(ReadPids(s, uuid, profiles, order), p) == if p in order then Raw(s, p) + profiles[p] else Raw(s, p)
  {
    if order != [] {
      var n := |order| - 1;
      PidsRaw(s, uuid, profiles, order[..n], p);
      assert order == order[..n] + [order[n]];
    }
  }

  /** And what is added. */
  lemma {:induction false} PidsTotal(s: State, uuid: string, profiles: map<int, Profile>, order: seq<int>, u: string,
      m: Metric)
    requires uuid in s.totals && forall i :: 0 <= i < |order| ==> order[i] in profiles
    requires forall i, j :: 0 <= i < j < |order| ==> order[i] != order[j]
    ensures Total(ReadPids(s, uuid, profiles, order), u, m)
      == Total(s, u, m) + if u == uuid then Sum(Elements(order), p => DeltaOf(s, profiles, p, m)) else 0
  {
    if order != [] {
      var n := |order| - 1;
      var pid, front := order[n], order[..n];
      PidsTotal(s, uuid, profiles, front, u, m);
      PidsRaw(s, uuid, profiles, front, pid);
      PidAdded(ReadPids(s, uuid, profiles, front), uuid, pid, profiles[pid], u, m);
      SumPick(Elements(order), p => DeltaOf(s, profiles, p, m), pid);
      assert Elements(order) - {pid} == Elements(front) by {
        assert order == front + [pid] && pid !in front;
      }
    }
  }

  lemma {:induction false} PidAdded(s: State, uuid: string, pid: int, p: Profile, u: string, m: Metric)
    requires uuid in s.totals
    ensures Total(ReadPid(s, uuid, pid, p), u, m) == Total(s, u, m) + if u == uuid then Delta(Raw(s, pid), p, m) else 0
  {
    AddProfileAt(s.totals[uuid], Raw(s, pid), p, m);
  }

  lemma {:induction false} NotProfiled(profilers: map<int, nat>, procs: seq<Proc>, pid: int)
    requires forall j :: 0 <= j < |procs| ==> procs[j].pid != pid
    ensures pid !in Profiles(profilers, procs)
  {
    if procs != [] {
      NotProfiled(profilers, procs[..|procs|-1], pid);
    }
  }

  /** The profiles of one cgroup: every process with a profiler and a successful read, with what was read. */
  lemma {:induction false} ProfilesAre(profilers: map<int, nat>, procs: seq<Proc>, i: nat)
    requires i < |procs| && forall j :: 0 <= j < |procs| && procs[j].pid == procs[i].pid ==> j == i
    ensures var profiles, p := Profiles(profilers, procs), procs[i];
      && (p.pid in profiles <==> p.pid in profilers && p.read.Some?)
      && (p.pid in profiles ==> profiles[p.pid] == p.read.value)
  {
    var n := |procs| - 1;
    if i < n {
      ProfilesAre(profilers, procs[..n], i);
      assert procs[n].pid != procs[i].pid;
    } else {
      NotProfiled(profilers, procs[..n], procs[n].pid);
    }
  }

  /** The reads of a scrape that count, from a state in which profilers are open. */
  ghost predicate Counts(s: State, cgroups: seq<Cgroup>, p: int)
  {
    p in s.profilers && ReadNow(cgroups, p).Some?
  }

  ghost function GainOf(s: State, cgroups: seq<Cgroup>, p: int, m: Metric): int
  {
    if Counts(s, cgroups, p) then Delta(Raw(s, p), ReadNow(cgroups, p).value, m) else 0
  }

  /** What the reads add for one cgroup. */
  ghost function GainsOf(s: State, cgroups: seq<Cgroup>, u: string, m: Metric): int
  {
    Sum(PidsOf(cgroups, u), p => GainOf(s, cgroups, p, m))
  }

  /** What all cgroups' reads leave. */
  ghost predicate AllRead(s: State, t: State, cgroups: seq<Cgroup>)
  {
    && (forall p :: Raw(t, p) == if Counts(s, cgroups, p) then Raw(s, p) + ReadNow(cgroups, p).value else Raw(s, p))
    && (forall u, m :: Total(t, u, m) == Total(s, u, m) + GainsOf(s, cgroups, u, m))
  }

  lemma {:induction false} UniqueFront(cgroups: seq<Cgroup>)
    requires cgroups != [] && UniquePids(cgroups)
    ensures UniquePids(cgroups[..|cgroups|-1])
  {
    var front := cgroups[..|cgroups|-1];
    forall a, i, b, j, pid | At(front, a, i, pid) && At(front, b, j, pid)
      ensures a == b && i == j
    {
      assert At(cgroups, a, i, pid) && At(cgroups, b, j, pid);
    }
  }

  /** The last cgroup's processes are not listed before, and the others are read alike. */
  lemma {:induction false} ReadFront(cgroups: seq<Cgroup>, p: int)
    requires cgroups != [] && UniquePids(cgroups)
    ensures var n := |cgroups| - 1;
      && (p in Pids(cgroups[n].procs) ==> !Listed(cgroups[..n], p) && ReadNow(cgroups[..n], p) == None)
      && (p !in Pids(cgroups[n].procs) ==> ReadNow(cgroups, p) == ReadNow(cgroups[..n], p))
  {
    var n := |cgroups| - 1;
    UniqueFront(cgroups);
    if p in Pids(cgroups[n].procs) {
      var i :| 0 <= i < |cgroups[n].procs| && cgroups[n].procs[i].pid == p;
      assert At(cgroups, n, i, p);
      if b, j :| At(cgroups[..n], b, j, p) {
        assert At(cgroups, b, j, p);
      }
    } else if b, j :| At(cgroups[..n], b, j, p) {
      ReadIs(cgroups[..n], b, j, p);
      assert At(cgroups, b, j, p);
      ReadIs(cgroups, b, j, p);
    } else {
      forall i | 0 <= i < |cgroups[n].procs| ensures cgroups[n].procs[i].pid != p {
        assert cgroups[n].procs[i].pid in Pids(cgroups[n].procs);
      }
      forall a, i ensures !At(cgroups, a, i, p) {
        assert !At(cgroups[..n], a, i, p);
      }
    }
  }

  /** The profiles of the last cgroup are its reads that count. */
  lemma {:induction false} LastProfiles(s: State, cgroups: seq<Cgroup>, p: int)
    requires cgroups != [] && UniquePids(cgroups)
    ensures var procs := cgroups[|cgroups|-1].procs;
      var profiles := Profiles(s.profilers, procs);
      && (p in profiles <==> p in Pids(procs) && Counts(s, cgroups, p))
      && (p in profiles ==> profiles[p] == ReadNow(cgroups, p).value)
  {
    var n := |cgroups| - 1;
    var procs := cgroups[n].procs;
    if p in Pids(procs) {
      var i :| 0 <= i < |procs| && procs[i].pid == p;
      assert At(cgroups, n, i, p);
      forall j | 0 <= j < |procs| && procs[j].pid == procs[i].pid ensures j == i {
        assert At(cgroups, n, j, p);
      }
      ProfilesAre(s.profilers, procs, i);
      ReadIs(cgroups, n, i, p);
    } else {
      forall j | 0 <= j < |procs| ensures procs[j].pid != p {
        assert procs[j].pid in Pids(procs);
      }
      NotProfiled(s.profilers, procs, p);
    }
  }

  /** What the last cgroup's reads add up to. */
  lemma {:induction false} LastSum(s: State, r: State, cgroups: seq<Cgroup>, order: seq<int>, m: Metric)
    requires cgroups != [] && UniquePids(cgroups)
    requires var procs := cgroups[|cgroups|-1].procs;
      && Walks(order, Profiles(s.profilers, procs).Keys)
      && forall p :: p in Pids(procs) ==> Raw(r, p) == Raw(s, p)
    ensures var procs := cgroups[|cgroups|-1].procs;
      Sum(Elements(order), p => DeltaOf(r, Profiles(s.profilers, procs), p, m))
          == Sum(Pids(procs), p => GainOf(s, cgroups, p, m))
  {
    var procs := cgroups[|cgroups|-1].procs;
    var profiles, all, done := Profiles(s.profilers, procs), Pids(procs), Elements(order);
    var f, g := p => DeltaOf(r, profiles, p, m), p => GainOf(s, cgroups, p, m);
    forall p ensures (p in done <==> p in all && Counts(s, cgroups, p)) && (p in done ==> f(p) == g(p)) {
      LastProfiles(s, cgroups, p);
    }
    assert forall p :: p in done ==> p in all && f(p) == g(p);
    SumWithin(done, all, f, g);
  }

  lemma {:induction false} TotalNext(s: State, r: State, t: State, cgroups: seq<Cgroup>, order: seq<int>, u: string,
      m: Metric)
    requires cgroups != [] && UniquePids(cgroups) && r.profilers == s.profilers
    requires AllRead(s, r, cgroups[..|cgroups|-1])
    requires var c := cgroups[|cgroups|-1];
      && c.uuid in r.totals && Walks(order, Profiles(s.profilers, c.procs).Keys)
      && (forall i :: 0 <= i < |order| ==> order[i] in Profiles(s.profilers, c.procs))
      && t == ReadPids(r, c.uuid, Profiles(s.profilers, c.procs), order)
    ensures Total(t, u, m) == Total(s, u, m) + GainsOf(s, cgroups, u, m)
  {
    var n := |cgroups| - 1;
    var c, front := cgroups[n], cgroups[..n];
    forall p ensures p in Pids(c.procs) ==> Raw(r, p) == Raw(s, p) && p !in PidsOf(front, u) {
      ReadFront(cgroups, p);
      PidsOfAre(front, u, p);
    }
    PidsTotal(r, c.uuid, Profiles(s.profilers, c.procs), order, u, m);
    LastSum(s, r, cgroups, order, m);
    var g := p => GainOf(s, cgroups, p, m);
    forall p | p in PidsOf(front, u) ensures GainOf(s, front, p, m) == g(p) {
      ReadFront(cgroups, p);
    }
    SumSame(PidsOf(front, u), p => GainOf(s, front, p, m), g);
    if c.uuid == u {
      SumUnion(PidsOf(front, u), Pids(c.procs), g);
    } else {
      assert PidsOf(cgroups, u) == PidsOf(front, u);
    }
  }

  lemma {:induction false} RawNext(s: State, r: State, t: State, cgroups: seq<Cgroup>, order: seq<int>, p: int)
    requires cgroups != [] && UniquePids(cgroups) && r.profilers == s.profilers
    requires AllRead(s, r, cgroups[..|cgroups|-1])
    requires var c := cgroups[|cgroups|-1];
      && c.uuid in r.totals && Walks(order, Profiles(s.profilers, c.procs).Keys)
      && (forall i :: 0 <= i < |order| ==> order[i] in Profiles(s.profilers, c.procs))
      && t == ReadPids(r, c.uuid, Profiles(s.profilers, c.procs), order)
    ensures Raw(t, p) == if Counts(s, cgroups, p) then Raw(s, p) + ReadNow(cgroups, p).value else Raw(s, p)
  {
    var c := cgroups[|cgroups|-1];
    PidsRaw(r, c.uuid, Profiles(s.profilers, c.procs), order, p);
    LastProfiles(s, cgroups, p);
    ReadFront(cgroups, p);
  }

  lemma {:induction false} CgroupsRead(s: State, cgroups: seq<Cgroup>, orders: seq<seq<int>>)
    requires WalksAll(s, cgroups, orders) && UniquePids(cgroups)
    requires forall i :: 0 <= i < |cgroups| ==> cgroups[i].uuid in s.totals
    ensures AllRead(s, ReadCgroups(s, cgroups, orders), cgroups)
  {
    if cgroups == [] {
      NothingRead(s, ReadCgroups(s, cgroups, orders), cgroups);
    } else {
      var n := |cgroups| - 1;
      UniqueFront(cgroups);
      ReadCgroupsNext(s, cgroups, orders, n);
      assert cgroups[..n+1] == cgroups && orders[..n+1] == orders;
      CgroupsRead(s, cgroups[..n], orders[..n]);
      var r, t := ReadCgroups(s, cgroups[..n], orders[..n]), ReadCgroups(s, cgroups, orders);
      forall p ensures Raw(t, p) == if Counts(s, cgroups, p) then Raw(s, p) + ReadNow(cgroups, p).value else Raw(s, p) {
        RawNext(s, r, t, cgroups, orders[n], p);
      }
      forall u, m ensures Total(t, u, m) == Total(s, u, m) + GainsOf(s, cgroups, u, m) {
        TotalNext(s, r, t, cgroups, orders[n], u, m);
      }
    }
  }

  lemma {:induction false} NothingRead(s: State, t: State, cgroups: seq<Cgroup>)
    requires cgroups == [] && t == s
    ensures AllRead(s, t, cgroups)
  {
    forall p ensures ReadNow(cgroups, p) == None {
      if a, i :| At(cgroups, a, i, p) {
      }
    }
    forall u, m ensures Total(t, u, m) == Total(s, u, m) + GainsOf(s, cgroups, u, m) {
      SumZero(PidsOf(cgroups, u), p => GainOf(s, cgroups, p, m));
    }
  }

  /* ---- Scrapes and runs ---- */

  /** One more scrape: the collector holds what the scrapes say, wrap-around and multiplexing included. */
  lemma {:induction false} ScrapeHolds(s: State, hist: seq<seq<Cgroup>>, cgroups: seq<Cgroup>, orders: seq<seq<int>>)
    requires Holds(s, hist) && UniquePids(cgroups) && ValidOrders(s, cgroups, orders)
    ensures Holds(Scrape(s, cgroups, orders), hist + [cgroups])
  {
    var next := hist + [cgroups];
    assert next[..|next|-1] == hist;
    if cgroups != [] {
      var r, t := Prepared(s, cgroups), Scrape(s, cgroups, orders);
      PreparedIs(s, cgroups);
      UuidsActive(s, cgroups);
      CgroupsRead(r, cgroups, orders);
      forall p ensures p in t.profilers <==> HasProfiler(next, p) {
      }
      forall p, m ensures ValueAt(Raw(t, p), m) == LastValue(next, p, m) {
        ValueHeld(s, hist, cgroups, r, t, p, m);
      }
      forall u, m ensures Total(t, u, m) == Charge(next, u, m) {
        ChargeHeld(s, hist, cgroups, r, t, u, m);
      }
    }
  }

  ghost predicate Step(s: State, hist: seq<seq<Cgroup>>, cgroups: seq<Cgroup>, r: State, t: State)
  {
    && Holds(s, hist) && cgroups != [] && r == Prepared(s, cgroups) && AllRead(r, t, cgroups)
    && (forall p :: p in r.profilers <==> HasProfiler(hist + [cgroups], p))
  }

  lemma {:induction false} ValueHeld(s: State, hist: seq<seq<Cgroup>>, cgroups: seq<Cgroup>, r: State, t: State,
      p: int, m: Metric)
    requires Step(s, hist, cgroups, r, t)
    ensures ValueAt(Raw(t, p), m) == LastValue(hist + [cgroups], p, m)
  {
    var next := hist + [cgroups];
    assert next[..|next|-1] == hist;
    PreparedIs(s, cgroups);
    assert ValueAt(Raw(s, p), m) == LastValue(hist, p, m);
  }

  lemma {:induction false} ChargeHeld(s: State, hist: seq<seq<Cgroup>>, cgroups: seq<Cgroup>, r: State, t: State,
      u: string, m: Metric)
    requires Step(s, hist, cgroups, r, t)
    ensures Total(t, u, m) == Charge(hist + [cgroups], u, m)
  {
    var next := hist + [cgroups];
    assert next[..|next|-1] == hist;
    PreparedIs(s, cgroups);
    forall p | p in PidsOf(cgroups, u) ensures GainOf(r, cgroups, p, m) == Gain(next, p, m) {
      PidsOfAre(cgroups, u, p);
      assert Listed(cgroups, p);
      assert ValueAt(Raw(s, p), m) == LastValue(hist, p, m);
    }
    SumSame(PidsOf(cgroups, u), p => GainOf(r, cgroups, p, m), p => Gain(next, p, m));
    if !UuidListed(cgroups, u) {
      forall p ensures p !in PidsOf(cgroups, u) {
        PidsOfAre(cgroups, u, p);
      }
      SumZero(PidsOf(cgroups, u), p => GainOf(r, cgroups, p, m));
    }
  }

  lemma {:induction false} StartHolds()
    ensures Holds(START, [])
  {
  }

  /** After one scrape, whatever came before: who has a profiler, and what is remembered of those that were read. */
  ghost predicate ProcessHeld(s: State, t: State, p: Proc)
  {
    && (p.pid in t.profilers <==> p.pid in s.profilers || p.opens)
    && (p.pid in t.profilers && p.read.Some? ==>
         p.pid in t.lastRaw && forall m :: m in p.read.value ==>
             m in t.lastRaw[p.pid] && t.lastRaw[p.pid][m] == p.read.value[m])
  }

  lemma {:induction false} OneScrape(s: State, cgroups: seq<Cgroup>, orders: seq<seq<int>>, a: nat, i: nat)
    requires UniquePids(cgroups) && ValidOrders(s, cgroups, orders)
    requires a < |cgroups| && i < |cgroups[a].procs|
    ensures ProcessHeld(s, Scrape(s, cgroups, orders), cgroups[a].procs[i])
  {
    var r, p := Prepared(s, cgroups), cgroups[a].procs[i];
    assert At(cgroups, a, i, p.pid);
    PreparedIs(s, cgroups);
    UuidsActive(s, cgroups);
    CgroupsRead(r, cgroups, orders);
    ReadIs(cgroups, a, i, p.pid);
    MapsCoupled(s, cgroups, orders);
    assert p.pid in Scrape(s, cgroups, orders).profilers <==> p.pid in s.profilers || Opens(cgroups, p.pid);
    if b, j :| At(cgroups, b, j, p.pid) && cgroups[b].procs[j].opens {
      assert a == b && i == j;
    }
  }

  /* ---- The sum over profilers of the last values read ---- */

  /** The last scrape that saw cgroups. */
  function LastSeen(hist: seq<seq<Cgroup>>): seq<Cgroup>
  {
    if hist == [] then [] else if hist[|hist|-1] == [] then LastSeen(hist[..|hist|-1]) else hist[|hist|-1]
  }

  /** Processes that stay stay in their cgroup. */
  ghost predicate StaysPut(before: seq<Cgroup>, now: seq<Cgroup>)
  {
    forall a, i, b, j, pid :: At(before, a, i, pid) && At(now, b, j, pid) ==> before[a].uuid == now[b].uuid
  }

  /** No wrap-around and no multiplexing in any read, and no process that changes its cgroup. */
  ghost predicate CleanHistory(hist: seq<seq<Cgroup>>)
  {
    hist != [] ==>
      var front, now := hist[..|hist|-1], hist[|hist|-1];
      && CleanHistory(front) && StaysPut(LastSeen(front), now)
      && (now != [] ==> forall p, m :: ReadCounts(hist, p, m) ==>
        CleanRead(LastValue(front, p, m), ReadNow(now, p).value[m]))
  }

  /** What the profilers of the processes that are listed last read. */
  ghost function Running(hist: seq<seq<Cgroup>>, uuid: string, m: Metric): int
  {
    Sum(PidsOf(LastSeen(hist), uuid), p => LastValue(hist, p, m).value)
  }

  ghost function Gone(before: seq<Cgroup>, now: seq<Cgroup>, uuid: string): set<int>
  {
    set p | p in PidsOf(before, uuid) && !Listed(now, p)
  }

  /** What the profilers of processes that are gone had last read, since the cgroup was first listed. */
  ghost function Finished(hist: seq<seq<Cgroup>>, uuid: string, m: Metric): int
  {
    if hist == [] then 0
    else
      var front, now := hist[..|hist|-1], hist[|hist|-1];
      if now == [] then Finished(front, uuid, m)
      else if !UuidListed(now, uuid) then 0
      else Finished(front, uuid, m) + Sum(Gone(LastSeen(front), now, uuid), p => LastValue(front, p, m).value)
  }

  lemma {:induction false} UnlistedZero(hist: seq<seq<Cgroup>>, p: int, m: Metric)
    requires !Listed(LastSeen(hist), p)
    ensures LastValue(hist, p, m) == ProfileValue(0, 0, 0)
  {
    if hist != [] && hist[|hist|-1] == [] {
      UnlistedZero(hist[..|hist|-1], p, m);
    }
  }

  lemma {:induction false} CleanGain(hist: seq<seq<Cgroup>>, p: int, m: Metric)
    requires CleanHistory(hist) && hist != [] && Listed(hist[|hist|-1], p)
    ensures Gain(hist, p, m) == LastValue(hist, p, m).value - LastValue(hist[..|hist|-1], p, m).value
  {
    var front, now := hist[..|hist|-1], hist[|hist|-1];
    if ReadCounts(hist, p, m) {
      ScalingExtrapolates(LastValue(front, p, m), ReadNow(now, p).value[m]);
    }
  }

  /** Processes of the cgroup before and now: those that are gone, those that stay, and new ones without a value. */
  lemma {:induction false} Regrouped(before: seq<Cgroup>, now: seq<Cgroup>, uuid: string, f: int -> int)
    requires StaysPut(before, now) && forall p :: !Listed(before, p) ==> f(p) == 0
    ensures Sum(PidsOf(before, uuid), f) == Sum(Gone(before, now, uuid), f) + Sum(PidsOf(now, uuid), f)
  {
    var q, p, gone := PidsOf(before, uuid), PidsOf(now, uuid), Gone(before, now, uuid);
    forall x ensures (x in q && x !in gone ==> x in p) && (x in p && x !in q ==> f(x) == 0) && (x in gone ==> x !in p) {
      StaysIn(before, now, uuid, x);
    }
    var both := q * p;
    assert forall x :: x in p && x !in q ==> f(x) == 0;
    assert q == gone + both && p == both + (p - q);
    SumUnion(gone, both, f);
    SumUnion(both, p - q, f);
    SumZero(p - q, f);
  }

  lemma {:induction false} StaysIn(before: seq<Cgroup>, now: seq<Cgroup>, uuid: string, x: int)
    requires StaysPut(before, now)
    ensures x in PidsOf(before, uuid) && Listed(now, x) ==> x in PidsOf(now, uuid)
    ensures x in PidsOf(now, uuid) ==> Listed(now, x) && (x in PidsOf(before, uuid) || !Listed(before, x))
  {
    PidsOfAre(before, uuid, x);
    PidsOfAre(now, uuid, x);
    if x in PidsOf(before, uuid) && Listed(now, x) {
      var a, i :| At(before, a, i, x) && before[a].uuid == uuid;
      var b, j :| At(now, b, j, x);
      assert now[b].uuid == uuid;
    }
    if x in PidsOf(now, uuid) && Listed(before, x) {
      var b, j :| At(now, b, j, x) && now[b].uuid == uuid;
      var a, i :| At(before, a, i, x);
      assert before[a].uuid == uuid;
    }
  }

  /** What the last scrape adds is what the values of the listed processes have grown by. */
  lemma {:induction false} CleanGains(hist: seq<seq<Cgroup>>, uuid: string, m: Metric)
    requires CleanHistory(hist) && hist != []
    ensures var front, ps := hist[..|hist|-1], PidsOf(hist[|hist|-1], uuid);
      Sum(ps, p => LastValue(hist, p, m).value)
          == Sum(ps, p => LastValue(front, p, m).value) + Sum(ps, p => Gain(hist, p, m))
  {
    var front, ps := hist[..|hist|-1], PidsOf(hist[|hist|-1], uuid);
    var now, last, gain := p => LastValue(hist, p, m).value, p => LastValue(front, p, m).value, p => Gain(hist, p, m);
    forall p | p in ps ensures now(p) == last(p) + gain(p) {
      PidsOfAre(hist[|hist|-1], uuid, p);
      CleanGain(hist, p, m);
    }
    SumPlus(ps, last, gain, now);
  }

  /**
   * Conservation: the counter of a cgroup is the sum of the last values read from the processes it has now, and from
   * all that it had since it was first listed and that are gone.
   */
  lemma {:induction false} ChargeIsLastReads(hist: seq<seq<Cgroup>>, uuid: string, m: Metric)
    requires CleanHistory(hist)
    ensures Charge(hist, uuid, m) == Finished(hist, uuid, m) + Running(hist, uuid, m)
  {
    if hist == [] {
      SumZero(PidsOf(LastSeen(hist), uuid), p => LastValue(hist, p, m).value);
    } else {
      var front, now := hist[..|hist|-1], hist[|hist|-1];
      ChargeIsLastReads(front, uuid, m);
      if now == [] {
        SumSame(PidsOf(LastSeen(hist), uuid), p => LastValue(hist, p, m).value, p => LastValue(front, p, m).value);
      } else if !UuidListed(now, uuid) {
        forall p ensures p !in PidsOf(now, uuid) {
          PidsOfAre(now, uuid, p);
        }
        SumZero(PidsOf(now, uuid), p => LastValue(hist, p, m).value);
      } else {
        CleanGains(hist, uuid, m);
        forall p ensures !Listed(LastSeen(front), p) ==> LastValue(front, p, m).value == 0 {
          if !Listed(LastSeen(front), p) {
            UnlistedZero(front, p, m);
          }
        }
        Regrouped(LastSeen(front), now, uuid, p => LastValue(front, p, m).value);
      }
    }
  }
}
