/** What a cgroup's counters are worth after any run of scrapes (pkg/collector/perf.go). */
module PerfConservation {
  import opened Options
  import opened PerfCounters
  import opened Sums

  /** What a profiler last read for a metric counts for its cgroup. */
  function Worth(lives: map<nat, Life>, i: nat, uuid: string, m: Metric): int
  {
    if i in lives && lives[i].uuid == uuid then ValueAt(lives[i].last, m).value else 0
  }

  /** The sum, over all profilers the cgroup has had, of the last raw value read. */
  ghost function LastReads(lives: map<nat, Life>, uuid: string, m: Metric): int
  {
    Sum(lives.Keys, i => Worth(lives, i, uuid, m))
  }

  /** Profilers are recorded under distinct numbers with the raw values the collector remembers for their process. */
  ghost predicate Coupled(s: State)
  {
    && (forall i :: i in s.lives ==> i < s.numOpened)
    && (forall p :: p in s.profilers ==> s.profilers[p] in s.lives && s.lives[s.profilers[p]].last == Raw(s, p))
    && (forall p, q :: p in s.profilers && q in s.profilers && p != q ==> s.profilers[p] != s.profilers[q])
  }

  /** A remembered process without a profiler has never been read: its first delta will count from zero. */
  ghost predicate Unread(s: State, pids: seq<int>)
  {
    forall p :: p in pids && p !in s.profilers ==> Raw(s, p) == map[]
  }

  ghost predicate Conserved(s: State)
  {
    forall u, m :: Total(s, u, m) == LastReads(s.lives, u, m)
  }

  /** The invariant between scrapes. */
  ghost predicate Inv(s: State)
  {
    && Coupled(s) && Conserved(s)
    && s.profilers.Keys <= s.lastRaw.Keys
    && forall p :: p !in s.profilers ==> Raw(s, p) == map[]
  }

  /* ---- Assumptions on a scrape ---- */

  ghost predicate Lists(c: Cgroup, pid: int)
  {
    exists i :: 0 <= i < |c.procs| && c.procs[i].pid == pid
  }

  /** No process is listed under two cgroups, or under another cgroup than its running profiler was opened for. */
  ghost predicate OneCgroupPerPid(s: State, cgroups: seq<Cgroup>)
  {
    && (forall a, b, p :: 0 <= a < |cgroups| && 0 <= b < |cgroups| && Lists(cgroups[a], p) && Lists(cgroups[b], p) ==>
         cgroups[a].uuid == cgroups[b].uuid)
    && (forall a, p :: 0 <= a < |cgroups| && Lists(cgroups[a], p) && p in s.profilers && s.profilers[p] in s.lives ==>
         s.lives[s.profilers[p]].uuid == cgroups[a].uuid)
  }

  /** No wrap-around and no multiplexing since the last read. */
  predicate CleanRead(last: ProfileValue, current: ProfileValue)
  {
    && current.value >= last.value && current.running >= last.running
    && current.enabled - last.enabled == current.running - last.running
  }

  ghost predicate CleanProfile(last: Profile, p: Profile)
  {
    forall m :: m in p ==> CleanRead(ValueAt(last, m), p[m])
  }

  /** Every read of the scrape is clean against what was remembered when it was taken. */
  ghost predicate CleanPids(s: State, uuid: string, profiles: map<int, Profile>, order: seq<int>)
    requires uuid in s.totals && forall i :: 0 <= i < |order| ==> order[i] in profiles
  {
    forall n {:trigger order[n]} :: 0 <= n < |order| ==>
      CleanProfile(Raw(ReadPids(s, uuid, profiles, order[..n]), order[n]), profiles[order[n]])
  }

  /* ---- Opening ---- */

  lemma {:induction false} OpenProcKeeps(s: State, uuid: string, p: Proc, pids: seq<int>)
    requires Coupled(s) && Conserved(s) && Unread(s, pids) && p.pid in pids
    ensures var t := OpenProc(s, uuid, p);
      Coupled(t) && Conserved(t) && Unread(t, pids) && t.lastRaw == s.lastRaw && t.totals == s.totals
  {
    var t := OpenProc(s, uuid, p);
    if t != s {
      var i := s.numOpened;
      assert i !in s.lives;
      forall u, m
        ensures LastReads(t.lives, u, m) == LastReads(s.lives, u, m)
      {
        var f, g := j => Worth(s.lives, j, u, m), j => Worth(t.lives, j, u, m);
        assert t.lives.Keys == s.lives.Keys + {i};
        SumPick(t.lives.Keys, g, i);
        assert t.lives.Keys - {i} == s.lives.Keys;
        SumSame(s.lives.Keys, f, g);
      }
      forall u, m ensures Total(t, u, m) == LastReads(t.lives, u, m) {
        assert Total(s, u, m) == LastReads(s.lives, u, m);
      }
    }
  }

  lemma {:induction false} OpenProcOwned(s: State, cgroups: seq<Cgroup>, a: nat, p: Proc)
    requires OneCgroupPerPid(s, cgroups) && Coupled(s) && a < |cgroups| && Lists(cgroups[a], p.pid)
    ensures OneCgroupPerPid(OpenProc(s, cgroups[a].uuid, p), cgroups)
  {
  }

  lemma {:induction false} OpenProcsKeep(s: State, cgroups: seq<Cgroup>, a: nat, n: nat, pids: seq<int>)
    requires a < |cgroups| && n <= |cgroups[a].procs|
    requires Coupled(s) && Conserved(s) && Unread(s, pids) && OneCgroupPerPid(s, cgroups)
    requires forall i :: 0 <= i < |cgroups[a].procs| ==> cgroups[a].procs[i].pid in pids
    ensures var t := OpenProcs(s, cgroups[a].uuid, cgroups[a].procs[..n]);
      && Coupled(t) && Conserved(t) && Unread(t, pids) && OneCgroupPerPid(t, cgroups)
      && t.lastRaw == s.lastRaw && t.totals == s.totals
  {
    if n > 0 {
      var procs := cgroups[a].procs;
      OpenProcsKeep(s, cgroups, a, n - 1, pids);
      assert procs[..n][..n-1] == procs[..n-1];
      var r := OpenProcs(s, cgroups[a].uuid, procs[..n-1]);
      assert Lists(cgroups[a], procs[n-1].pid);
      OpenProcOwned(r, cgroups, a, procs[n-1]);
      OpenProcKeeps(r, cgroups[a].uuid, procs[n-1], pids);
    }
  }

  lemma {:induction false} PidsListed(cgroups: seq<Cgroup>, p: int)
    ensures p in ActivePids(cgroups) <==> exists a :: 0 <= a < |cgroups| && Lists(cgroups[a], p)
  {
    if cgroups != [] {
      var n := |cgroups| - 1;
      var last := ProcPids(cgroups[n].procs);
      PidsListed(cgroups[..n], p);
      assert p in last <==> Lists(cgroups[n], p) by {
        if p in last {
          var i :| 0 <= i < |last| && last[i] == p;
          assert cgroups[n].procs[i].pid == p;
        }
        if Lists(cgroups[n], p) {
          var i :| 0 <= i < |cgroups[n].procs| && cgroups[n].procs[i].pid == p;
          assert last[i] == p;
        }
      }
      assert forall a :: 0 <= a < n ==> cgroups[..n][a] == cgroups[a];
    }
  }

  lemma {:induction false} OpenAllKeeps(s: State, cgroups: seq<Cgroup>, n: nat)
    requires n <= |cgroups|
    requires Coupled(s) && Conserved(s) && Unread(s, ActivePids(cgroups)) && OneCgroupPerPid(s, cgroups)
    ensures var t := OpenAll(s, cgroups[..n]);
      && Coupled(t) && Conserved(t) && Unread(t, ActivePids(cgroups)) && OneCgroupPerPid(t, cgroups)
      && t.lastRaw == s.lastRaw && t.totals == s.totals
  {
    if n > 0 {
      OpenAllKeeps(s, cgroups, n - 1);
      assert cgroups[..n][..n-1] == cgroups[..n-1];
      var procs := cgroups[n-1].procs;
      forall i | 0 <= i < |procs|
        ensures procs[i].pid in ActivePids(cgroups)
      {
        assert Lists(cgroups[n-1], procs[i].pid);
        PidsListed(cgroups, procs[i].pid);
      }
      assert procs[..|procs|] == procs;
      OpenProcsKeep(OpenAll(s, cgroups[..n-1]), cgroups, n - 1, |procs|, ActivePids(cgroups));
    }
  }

  /* ---- Closing and evicting ---- */

  /** Dropping the profilers of other cgroups does not change what a cgroup's profilers add up to. */
  lemma {:induction false} EvictedWorthNothing(lives: map<nat, Life>, kept: map<nat, Life>, u: string, m: Metric)
    requires kept.Keys <= lives.Keys && forall i :: i in kept ==> kept[i] == lives[i]
    requires forall i :: i in lives && i !in kept ==> lives[i].uuid != u
    ensures LastReads(kept, u, m) == LastReads(lives, u, m)
  {
    var f, g := i => Worth(lives, i, u, m), i => Worth(kept, i, u, m);
    var gone := lives.Keys - kept.Keys;
    assert lives.Keys == kept.Keys + gone;
    SumUnion(kept.Keys, gone, f);
    SumZero(gone, f);
    SumSame(kept.Keys, f, g);
  }

  lemma {:induction false} NoLivesNothing(lives: map<nat, Life>, u: string, m: Metric)
    requires forall i :: i in lives ==> lives[i].uuid != u
    ensures LastReads(lives, u, m) == 0
  {
    SumZero(lives.Keys, i => Worth(lives, i, u, m));
  }

  lemma {:induction false} RefreshConserves(s: State, pids: seq<int>, uuids: seq<string>)
    requires Conserved(s)
    ensures Conserved(Refresh(Close(s, pids), pids, uuids))
  {
    var t := Refresh(Close(s, pids), pids, uuids);
    forall u, m
      ensures Total(t, u, m) == LastReads(t.lives, u, m)
    {
      if u in uuids {
        EvictedWorthNothing(s.lives, t.lives, u, m);
        assert Total(s, u, m) == LastReads(s.lives, u, m);
      } else {
        NoLivesNothing(t.lives, u, m);
      }
    }
  }

  /** A profiler that is kept belongs to a listed cgroup, so its record is kept too. */
  lemma {:induction false} KeptRecorded(s: State, cgroups: seq<Cgroup>, p: int)
    requires Coupled(s) && OneCgroupPerPid(s, cgroups) && p in s.profilers && p in ActivePids(cgroups)
    ensures s.lives[s.profilers[p]].uuid in ActiveUuids(cgroups)
  {
    PidsListed(cgroups, p);
    var a :| 0 <= a < |cgroups| && Lists(cgroups[a], p);
    assert ActiveUuids(cgroups)[a] == cgroups[a].uuid;
  }

  lemma {:induction false} RefreshCoupled(s: State, cgroups: seq<Cgroup>)
    requires Coupled(s) && Unread(s, ActivePids(cgroups)) && OneCgroupPerPid(s, cgroups)
    ensures Coupled(Refresh(Close(s, ActivePids(cgroups)), ActivePids(cgroups), ActiveUuids(cgroups)))
  {
    var t := Refresh(Close(s, ActivePids(cgroups)), ActivePids(cgroups), ActiveUuids(cgroups));
    forall p | p in t.profilers
      ensures t.profilers[p] in t.lives
    {
      KeptRecorded(s, cgroups, p);
    }
  }

  lemma {:induction false} RefreshOneCgroup(s: State, cgroups: seq<Cgroup>)
    requires OneCgroupPerPid(s, cgroups)
    ensures OneCgroupPerPid(Refresh(Close(s, ActivePids(cgroups)), ActivePids(cgroups), ActiveUuids(cgroups)), cgroups)
  {
  }

  lemma {:induction false} RefreshKeeps(s: State, cgroups: seq<Cgroup>)
    requires Coupled(s) && Conserved(s) && Unread(s, ActivePids(cgroups)) && OneCgroupPerPid(s, cgroups)
    ensures var t := Refresh(Close(s, ActivePids(cgroups)), ActivePids(cgroups), ActiveUuids(cgroups));
      Inv(t) && OneCgroupPerPid(t, cgroups)
  {
    RefreshConserves(s, ActivePids(cgroups), ActiveUuids(cgroups));
    RefreshCoupled(s, cgroups);
    RefreshOneCgroup(s, cgroups);
  }

  /* ---- Reading ---- */

  lemma {:induction false} CleanDelta(c: Counters, last: Profile, p: Profile, m: Metric)
    requires CleanProfile(last, p)
    ensures Counter(AddProfile(c, last, p), m) == Counter(c, m) + ValueAt(last + p, m).value - ValueAt(last, m).value
  {
    AddProfileAt(c, last, p, m);
    if m in p {
      ScalingExtrapolates(ValueAt(last, m), p[m]);
    }
  }

  lemma {:induction false} ReadPidConserves(s: State, uuid: string, pid: int, p: Profile)
    requires Coupled(s) && Conserved(s) && uuid in s.totals && pid in s.profilers
    requires s.lives[s.profilers[pid]].uuid == uuid && CleanProfile(Raw(s, pid), p)
    ensures Conserved(ReadPid(s, uuid, pid, p))
  {
    var t := ReadPid(s, uuid, pid, p);
    var i := s.profilers[pid];
    forall u, m
      ensures Total(t, u, m) == LastReads(t.lives, u, m)
    {
      var f, g := j => Worth(s.lives, j, u, m), j => Worth(t.lives, j, u, m);
      assert t.lives.Keys == s.lives.Keys;
      SumChange(s.lives.Keys, f, g, i);
      CleanDelta(s.totals[uuid], Raw(s, pid), p, m);
      assert Total(s, u, m) == LastReads(s.lives, u, m);
    }
  }

  lemma {:induction false} ReadPidCoupled(s: State, uuid: string, pid: int, p: Profile)
    requires Coupled(s) && uuid in s.totals && pid in s.profilers && s.profilers.Keys <= s.lastRaw.Keys
    requires forall q :: q !in s.profilers ==> Raw(s, q) == map[]
    ensures var t := ReadPid(s, uuid, pid, p);
      && Coupled(t) && t.profilers == s.profilers && t.lastRaw.Keys == s.lastRaw.Keys
      && (forall q :: q !in t.profilers ==> Raw(t, q) == map[])
      && t.lives.Keys == s.lives.Keys && forall i :: i in s.lives ==> t.lives[i].uuid == s.lives[i].uuid
  {
  }

  lemma {:induction false} CleanFront(s: State, uuid: string, profiles: map<int, Profile>, order: seq<int>)
    requires uuid in s.totals && order != [] && forall i :: 0 <= i < |order| ==> order[i] in profiles
    requires CleanPids(s, uuid, profiles, order)
    ensures CleanPids(s, uuid, profiles, order[..|order|-1])
    ensures var n := |order| - 1;
      CleanProfile(Raw(ReadPids(s, uuid, profiles, order[..n]), order[n]), profiles[order[n]])
  {
    var n := |order| - 1;
    forall k | 0 <= k < n
      ensures CleanProfile(Raw(ReadPids(s, uuid, profiles, order[..n][..k]), order[..n][k]), profiles[order[..n][k]])
    {
      assert order[..n][..k] == order[..k] && order[..n][k] == order[k];
    }
    assert order[n] == order[|order|-1];
  }

  lemma {:induction false} ReadPidsKeep(s: State, cgroups: seq<Cgroup>, a: nat, profiles: map<int, Profile>,
      order: seq<int>)
    requires Inv(s) && OneCgroupPerPid(s, cgroups) && a < |cgroups| && cgroups[a].uuid in s.totals
    requires forall i :: 0 <= i < |order| ==>
      order[i] in profiles && order[i] in s.profilers && Lists(cgroups[a], order[i])
    requires CleanPids(s, cgroups[a].uuid, profiles, order)
    ensures var t := ReadPids(s, cgroups[a].uuid, profiles, order);
      Inv(t) && OneCgroupPerPid(t, cgroups) && t.profilers == s.profilers && t.lastRaw.Keys == s.lastRaw.Keys
  {
    if order != [] {
      var n := |order| - 1;
      var uuid := cgroups[a].uuid;
      CleanFront(s, uuid, profiles, order);
      ReadPidsKeep(s, cgroups, a, profiles, order[..n]);
      var r := ReadPids(s, uuid, profiles, order[..n]);
      ReadPidConserves(r, uuid, order[n], profiles[order[n]]);
      ReadPidCoupled(r, uuid, order[n], profiles[order[n]]);
    }
  }

  lemma {:induction false} ProfilesListed(profilers: map<int, nat>, procs: seq<Proc>, pid: int)
    requires pid in Profiles(profilers, procs)
    ensures pid in profilers
    ensures exists i ::
      0 <= i < |procs| && procs[i].pid == pid && procs[i].read == Some(Profiles(profilers, procs)[pid])
  {
    var n := |procs| - 1;
    var p := procs[n];
    if !(p.pid == pid && p.read.Some? && p.pid in profilers) {
      ProfilesListed(profilers, procs[..n], pid);
      var i :| 0 <= i < n && procs[..n][i].pid == pid
        && procs[..n][i].read == Some(Profiles(profilers, procs[..n])[pid]);
      assert procs[i] == procs[..n][i];
    }
  }

  /** All reads of the first n cgroups are clean. */
  ghost predicate CleanCgroups(s: State, cgroups: seq<Cgroup>, orders: seq<seq<int>>, n: nat)
    requires n <= |cgroups| && WalksAll(s, cgroups, orders)
    requires forall i :: 0 <= i < |cgroups| ==> cgroups[i].uuid in s.totals
  {
    n > 0 ==>
      && CleanCgroups(s, cgroups, orders, n - 1)
      && (WalksFront(s, cgroups, orders, n - 1);
          var r := ReadCgroups(s, cgroups[..n-1], orders[..n-1]);
          WalkIndices(s, cgroups, orders, n - 1);
          CleanPids(r, cgroups[n-1].uuid, Profiles(s.profilers, cgroups[n-1].procs), orders[n-1]))
  }

  lemma {:induction false} WalksFront(s: State, cgroups: seq<Cgroup>, orders: seq<seq<int>>, n: nat)
    requires n <= |cgroups| && WalksAll(s, cgroups, orders)
    ensures WalksAll(s, cgroups[..n], orders[..n])
  {
    assert forall i :: 0 <= i < n ==> cgroups[..n][i] == cgroups[i] && orders[..n][i] == orders[i];
  }

  lemma {:induction false} WalkIndices(s: State, cgroups: seq<Cgroup>, orders: seq<seq<int>>, a: nat)
    requires a < |cgroups| && WalksAll(s, cgroups, orders)
    ensures forall i :: 0 <= i < |orders[a]| ==> orders[a][i] in Profiles(s.profilers, cgroups[a].procs)
  {
    var order, keys := orders[a], Profiles(s.profilers, cgroups[a].procs).Keys;
    assert Walks(order, keys);
    forall i | 0 <= i < |order|
      ensures order[i] in keys
    {
      assert order[i] in order;
    }
  }

  /** What reading keeps, besides the invariant. */
  ghost predicate KeptFrom(s: State, t: State, cgroups: seq<Cgroup>)
  {
    Inv(t) && OneCgroupPerPid(t, cgroups) && t.profilers == s.profilers && t.lastRaw.Keys == s.lastRaw.Keys
  }

  lemma {:induction false} ReadCgroupKeeps(s: State, r: State, cgroups: seq<Cgroup>, a: nat, order: seq<int>)
    requires a < |cgroups| && KeptFrom(s, r, cgroups) && cgroups[a].uuid in r.totals
    requires forall i :: 0 <= i < |order| ==> order[i] in Profiles(s.profilers, cgroups[a].procs)
    requires CleanPids(r, cgroups[a].uuid, Profiles(s.profilers, cgroups[a].procs), order)
    ensures KeptFrom(s, ReadPids(r, cgroups[a].uuid, Profiles(s.profilers, cgroups[a].procs), order), cgroups)
  {
    forall i | 0 <= i < |order|
      ensures order[i] in r.profilers && Lists(cgroups[a], order[i])
    {
      ProfilesListed(s.profilers, cgroups[a].procs, order[i]);
    }
    ReadPidsKeep(r, cgroups, a, Profiles(s.profilers, cgroups[a].procs), order);
  }

  lemma {:induction false} ReadCgroupsNext(s: State, cgroups: seq<Cgroup>, orders: seq<seq<int>>, a: nat)
    requires a < |cgroups| && WalksAll(s, cgroups, orders)
    requires forall i :: 0 <= i < |cgroups| ==> cgroups[i].uuid in s.totals
    ensures WalksAll(s, cgroups[..a], orders[..a]) && WalksAll(s, cgroups[..a+1], orders[..a+1])
    ensures forall i :: 0 <= i < |orders[a]| ==> orders[a][i] in Profiles(s.profilers, cgroups[a].procs)
    ensures ReadCgroups(s, cgroups[..a+1], orders[..a+1]) == ReadPids(
      ReadCgroups(s, cgroups[..a], orders[..a]), cgroups[a].uuid, Profiles(s.profilers, cgroups[a].procs), orders[a])
  {
    WalksFront(s, cgroups, orders, a + 1);
    WalksFront(s, cgroups, orders, a);
    WalkIndices(s, cgroups, orders, a);
    assert cgroups[..a+1][..a] == cgroups[..a] && orders[..a+1][..a] == orders[..a];
  }

  lemma {:induction false} ReadNone(s: State, cgroups: seq<Cgroup>, orders: seq<seq<int>>)
    requires WalksAll(s, cgroups, orders) && cgroups == []
    ensures ReadCgroups(s, cgroups, orders) == s
  {
  }

  lemma {:induction false} KeptSame(s: State, t: State, cgroups: seq<Cgroup>)
    requires Inv(s) && OneCgroupPerPid(s, cgroups) && t == s
    ensures KeptFrom(s, t, cgroups)
  {
  }

  lemma {:induction false} CleanNext(s: State, cgroups: seq<Cgroup>, orders: seq<seq<int>>, a: nat)
    requires a < |cgroups| && WalksAll(s, cgroups, orders)
    requires forall i :: 0 <= i < |cgroups| ==> cgroups[i].uuid in s.totals
    requires CleanCgroups(s, cgroups, orders, a + 1)
    ensures CleanCgroups(s, cgroups, orders, a) && WalksAll(s, cgroups[..a], orders[..a])
    ensures forall i :: 0 <= i < |orders[a]| ==> orders[a][i] in Profiles(s.profilers, cgroups[a].procs)
    ensures CleanPids(ReadCgroups(s, cgroups[..a], orders[..a]), cgroups[a].uuid,
      Profiles(s.profilers, cgroups[a].procs), orders[a])
  {
    WalksFront(s, cgroups, orders, a);
    WalkIndices(s, cgroups, orders, a);
  }

  lemma {:induction false} KeptNext(s: State, cgroups: seq<Cgroup>, orders: seq<seq<int>>, a: nat)
    requires a < |cgroups| && WalksAll(s, cgroups, orders)
    requires forall i :: 0 <= i < |cgroups| ==> cgroups[i].uuid in s.totals
    requires CleanCgroups(s, cgroups, orders, a + 1)
    requires WalksAll(s, cgroups[..a], orders[..a]) && KeptFrom(s, ReadCgroups(s, cgroups[..a], orders[..a]), cgroups)
    ensures WalksAll(s, cgroups[..a+1], orders[..a+1])
      && KeptFrom(s, ReadCgroups(s, cgroups[..a+1], orders[..a+1]), cgroups)
  {
    CleanNext(s, cgroups, orders, a);
    ReadCgroupsNext(s, cgroups, orders, a);
    ReadCgroupKeeps(s, ReadCgroups(s, cgroups[..a], orders[..a]), cgroups, a, orders[a]);
  }

  lemma {:induction false} ReadCgroupsKeep(s: State, cgroups: seq<Cgroup>, orders: seq<seq<int>>, n: nat)
    requires n <= |cgroups| && WalksAll(s, cgroups, orders) && Inv(s) && OneCgroupPerPid(s, cgroups)
    requires forall i :: 0 <= i < |cgroups| ==> cgroups[i].uuid in s.totals
    requires CleanCgroups(s, cgroups, orders, n)
    ensures WalksAll(s, cgroups[..n], orders[..n])
    ensures KeptFrom(s, ReadCgroups(s, cgroups[..n], orders[..n]), cgroups)
  {
    if n == 0 {
      WalksFront(s, cgroups, orders, 0);
      ReadNone(s, cgroups[..0], orders[..0]);
      KeptSame(s, ReadCgroups(s, cgroups[..0], orders[..0]), cgroups);
    } else {
      CleanNext(s, cgroups, orders, n - 1);
      ReadCgroupsKeep(s, cgroups, orders, n - 1);
      KeptNext(s, cgroups, orders, n - 1);
    }
  }

  /* ---- Whole scrapes and runs ---- */

  /** One scrape without wrap-around, multiplexing or processes that change cgroup. */
  ghost predicate CleanScrape(s: State, cgroups: seq<Cgroup>, orders: seq<seq<int>>)
  {
    && ValidOrders(s, cgroups, orders)
    && OneCgroupPerPid(s, cgroups)
    && (UuidsActive(s, cgroups); CleanCgroups(Prepared(s, cgroups), cgroups, orders, |cgroups|))
  }

  lemma {:induction false} PreparedKeeps(s: State, cgroups: seq<Cgroup>)
    requires Inv(s) && OneCgroupPerPid(s, cgroups)
    ensures Inv(Prepared(s, cgroups)) && OneCgroupPerPid(Prepared(s, cgroups), cgroups)
  {
    OpenAllKeeps(s, cgroups, |cgroups|);
    assert cgroups[..|cgroups|] == cgroups;
    RefreshKeeps(OpenAll(s, cgroups), cgroups);
  }

  lemma {:induction false} ScrapeKeeps(s: State, cgroups: seq<Cgroup>, orders: seq<seq<int>>)
    requires Inv(s) && CleanScrape(s, cgroups, orders)
    ensures Inv(Scrape(s, cgroups, orders))
  {
    if cgroups != [] {
      PreparedKeeps(s, cgroups);
      UuidsActive(s, cgroups);
      ReadCgroupsKeep(Prepared(s, cgroups), cgroups, orders, |cgroups|);
      assert cgroups[..|cgroups|] == cgroups && orders[..|orders|] == orders;
    }
  }

  /** What one scrape sees: the cgroups, and the orders in which the profile maps are walked. */
  datatype Input = Input(cgroups: seq<Cgroup>, orders: seq<seq<int>>)

  ghost predicate CleanRun(s: State, run: seq<Input>)
    decreases |run|
  {
    run != [] ==>
      && CleanScrape(s, run[0].cgroups, run[0].orders)
      && CleanRun(Scrape(s, run[0].cgroups, run[0].orders), run[1..])
  }

  ghost function After(s: State, run: seq<Input>): State
    requires CleanRun(s, run)
    decreases |run|
  {
    if run == [] then s else After(Scrape(s, run[0].cgroups, run[0].orders), run[1..])
  }

  lemma {:induction false} RunKeeps(s: State, run: seq<Input>)
    requires Inv(s) && CleanRun(s, run)
    ensures Inv(After(s, run))
    decreases |run|
  {
    if run != [] {
      ScrapeKeeps(s, run[0].cgroups, run[0].orders);
      RunKeeps(Scrape(s, run[0].cgroups, run[0].orders), run[1..]);
    }
  }

  /**
   * Conservation: after any run from the start, every counter of every cgroup is the sum, over all profilers it has
   * had since it became active, of the last raw value read: profilers closed long ago, and several under one process
   * number, included.
   */
  lemma {:induction false} RunConserves(run: seq<Input>, uuid: string, m: Metric)
    requires CleanRun(START, run)
    ensures var s := After(START, run);
      Total(s, uuid, m) == LastReads(s.lives, uuid, m)
  {
    forall u, n ensures LastReads(START.lives, u, n) == 0 {
      NoLivesNothing(START.lives, u, n);
    }
    RunKeeps(START, run);
  }

  /* ---- What holds without assumptions on the reads ---- */

  lemma {:induction false} ReadPidsKeys(s: State, uuid: string, profiles: map<int, Profile>, order: seq<int>)
    requires uuid in s.totals && forall i :: 0 <= i < |order| ==> order[i] in profiles && order[i] in s.lastRaw
    ensures ReadPids(s, uuid, profiles, order).lastRaw.Keys == s.lastRaw.Keys
    ensures forall u, m :: Total(ReadPids(s, uuid, profiles, order), u, m) >= Total(s, u, m)
  {
    if order != [] {
      var n := |order| - 1;
      ReadPidsKeys(s, uuid, profiles, order[..n]);
      var r, t := ReadPids(s, uuid, profiles, order[..n]), ReadPids(s, uuid, profiles, order);
      forall u, m
        ensures Total(t, u, m) >= Total(r, u, m) >= Total(s, u, m)
      {
        var p := profiles[order[n]];
        AddProfileAt(r.totals[uuid], Raw(r, order[n]), p, m);
        if m in p {
          ScalingNonNegative(ValueAt(Raw(r, order[n]), m), p[m]);
        }
      }
    }
  }

  lemma {:induction false} ReadCgroupsKeys(s: State, cgroups: seq<Cgroup>, orders: seq<seq<int>>)
    requires WalksAll(s, cgroups, orders) && s.profilers.Keys <= s.lastRaw.Keys
    requires forall i :: 0 <= i < |cgroups| ==> cgroups[i].uuid in s.totals
    ensures ReadCgroups(s, cgroups, orders).lastRaw.Keys == s.lastRaw.Keys
    ensures forall u, m :: Total(ReadCgroups(s, cgroups, orders), u, m) >= Total(s, u, m)
  {
    if cgroups != [] {
      var n := |cgroups| - 1;
      WalksFront(s, cgroups, orders, n);
      WalkIndices(s, cgroups, orders, n);
      ReadCgroupsKeys(s, cgroups[..n], orders[..n]);
      var order := orders[n];
      forall i | 0 <= i < |order|
        ensures order[i] in s.lastRaw
      {
        ProfilesListed(s.profilers, cgroups[n].procs, order[i]);
      }
      ReadPidsKeys(ReadCgroups(s, cgroups[..n], orders[..n]), cgroups[n].uuid, Profiles(s.profilers, cgroups[n].procs),
          order);
    }
  }

  /**
   * After every scrape that saw cgroups, whatever came before: profilers run only for remembered processes, these are
   * exactly the listed ones, and totals are kept for exactly the listed cgroups.
   */
  lemma {:induction false} MapsCoupled(s: State, cgroups: seq<Cgroup>, orders: seq<seq<int>>)
    requires ValidOrders(s, cgroups, orders) && cgroups != []
    ensures var t := Scrape(s, cgroups, orders);
      && t.profilers.Keys <= t.lastRaw.Keys
      && (forall p :: p in t.lastRaw <==> p in ActivePids(cgroups))
      && (forall u :: u in t.totals <==> u in ActiveUuids(cgroups))
  {
    UuidsActive(s, cgroups);
    ReadCgroupsKeys(Prepared(s, cgroups), cgroups, orders);
  }

  lemma {:induction false} OpenProcsFrame(s: State, uuid: string, procs: seq<Proc>)
    ensures OpenProcs(s, uuid, procs).totals == s.totals && OpenProcs(s, uuid, procs).lastRaw == s.lastRaw
  {
    if procs != [] {
      OpenProcsFrame(s, uuid, procs[..|procs|-1]);
    }
  }

  lemma {:induction false} OpenAllFrame(s: State, cgroups: seq<Cgroup>)
    ensures OpenAll(s, cgroups).totals == s.totals && OpenAll(s, cgroups).lastRaw == s.lastRaw
  {
    if cgroups != [] {
      OpenAllFrame(s, cgroups[..|cgroups|-1]);
      OpenProcsFrame(OpenAll(s, cgroups[..|cgroups|-1]), cgroups[|cgroups|-1].uuid, cgroups[|cgroups|-1].procs);
    }
  }

  /** Totals of a cgroup never decrease while it is listed, whatever the reads say. */
  lemma {:induction false} TotalsGrow(s: State, cgroups: seq<Cgroup>, orders: seq<seq<int>>, uuid: string, m: Metric)
    requires ValidOrders(s, cgroups, orders)
    requires cgroups == [] || uuid in ActiveUuids(cgroups)
    ensures Total(Scrape(s, cgroups, orders), uuid, m) >= Total(s, uuid, m)
  {
    if cgroups != [] {
      UuidsActive(s, cgroups);
      OpenAllFrame(s, cgroups);
      ReadCgroupsKeys(Prepared(s, cgroups), cgroups, orders);
    }
  }
}
