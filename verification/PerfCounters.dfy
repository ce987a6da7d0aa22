/** Hardware counters of processes, per cgroup (pkg/collector/perf.go). */
module PerfCounters {
  import opened Options
  import opened Seqs
  import opened Words

  datatype Metric = CpuCycles | Instructions | BranchInstructions | BranchMisses | CacheRefs | CacheMisses
      | RefCpuCycles

  /** perf.ProfileValue: the raw counter and how long it was enabled and running. */
  datatype ProfileValue = ProfileValue(value: Word, enabled: Word, running: Word)

  /** The counters that one read of a profiler delivered; a nil counter is absent. */
  type Profile = map<Metric, ProfileValue>

  type Counters = map<Metric, int>

  /** A process with what the kernel answers this scrape: whether a profiler opens, and what reading it gives. */
  datatype Proc = Proc(pid: int, opens: bool, read: Option<Profile>)

  datatype Cgroup = Cgroup(uuid: string, procs: seq<Proc>)

  /** One profiler from open to close, with the cgroup it was opened for and the last raw values read from it. */
  datatype Life = Life(uuid: string, last: Profile)

  /**
   * The collector's maps, where a profiler is known by a number, and beside them the record of all profilers
   * opened for the active cgroups.
   */
  datatype State = State(
    profilers: map<int, nat>,
    numOpened: nat,
    lastRaw: map<int, Profile>,
    totals: map<string, Counters>,
    lives: map<nat, Life>)

  const START := State(map[], 0, map[], map[], map[])

  function Raw(s: State, pid: int): Profile
  {
    if pid in s.lastRaw then s.lastRaw[pid] else map[]
  }

  function ValueAt(p: Profile, m: Metric): ProfileValue
  {
    if m in p then p[m] else ProfileValue(0, 0, 0)
  }

  function Counter(c: Counters, m: Metric): int
  {
    if m in c then c[m] else 0
  }

  function Total(s: State, uuid: string, m: Metric): int
  {
    if uuid in s.totals then Counter(s.totals[uuid], m) else 0
  }

  /* ---- Scaling ---- */

  function Round(x: real): int
  {
    (x + 0.5).Floor
  }

  /** scaleCounter, with the wrap-around of unsigned 64-bit subtraction and addition. */
  function ScaleCounter(last: ProfileValue, current: ProfileValue): int
  {
    var deltaEnabled := (current.enabled - last.enabled) % WORD;
    var deltaRunning := (current.running - last.running) % WORD;
    var deltaCounter := if current.value < last.value then (last.value + current.value) % WORD
      else current.value - last.value;
    if current.running > last.running then Round((deltaEnabled as real / deltaRunning as real) * deltaCounter as real)
    else deltaCounter
  }

  /** What was counted since the last read, which after an overflow is taken to start from zero at the last value. */
  ghost predicate CountedSince(last: ProfileValue, current: ProfileValue, count: int)
  {
    0 <= count < WORD && if current.value >= last.value then count == current.value - last.value
      else count == last.value + current.value || count == last.value + current.value - WORD
  }

  /** How long the counter was enabled since the last read, which may wrap around. */
  ghost predicate EnabledSince(last: ProfileValue, current: ProfileValue, enabled: int)
  {
    && 0 <= enabled < WORD
    && (enabled == current.enabled - last.enabled || enabled == current.enabled - last.enabled + WORD)
  }

  /** The whole number nearest to count * enabled / ran; halves go up. */
  ghost predicate Nearest(scaled: int, count: int, enabled: int, ran: int)
  {
    -ran <= 2 * enabled * count - 2 * ran * scaled < ran
  }

  /**
   * If the counter ran since the last read, what was counted is scaled by how much longer it was enabled than it ran,
   * to the nearest whole number.
   */
  lemma {:induction false} ScaledIs(last: ProfileValue, current: ProfileValue) returns (count: int, enabled: int)
    ensures CountedSince(last, current, count) && EnabledSince(last, current, enabled)
    ensures current.running <= last.running ==> ScaleCounter(last, current) == count
    ensures current.running > last.running ==>
      Nearest(ScaleCounter(last, current), count, enabled, current.running - last.running)
  {
    enabled := (current.enabled - last.enabled) % WORD;
    count := if current.value < last.value then (last.value + current.value) % WORD else current.value - last.value;
    WrapOnce(current.enabled - last.enabled);
    WrapOnce(last.value + current.value);
    if current.running > last.running {
      ScaledRan(last, current, count, enabled, current.running - last.running);
    }
  }

  lemma {:induction false} ScaledRan(last: ProfileValue, current: ProfileValue, count: int, enabled: int, ran: int)
    requires ran == current.running - last.running > 0 && enabled == (current.enabled - last.enabled) % WORD
    requires count == if current.value < last.value then (last.value + current.value) % WORD
      else current.value - last.value
    ensures Nearest(ScaleCounter(last, current), count, enabled, ran)
  {
    assert (current.running - last.running) % WORD == ran;
    var scaled := Round((enabled as real / ran as real) * count as real);
    assert ScaleCounter(last, current) == scaled;
    NearestIs(enabled, ran, count, scaled);
  }

  lemma {:induction false} WrapOnce(d: int)
    requires -WORD < d < 2 * WORD
    ensures d % WORD == d || d % WORD == d + WORD || d % WORD == d - WORD
  {
  }

  lemma {:induction false} NearestIs(e: int, r: int, c: int, n: int)
    requires r > 0 && n == Round((e as real / r as real) * c as real)
    ensures Nearest(n, c, e, r)
  {
    var q, x, t := e as real / r as real, c as real, r as real;
    var y := q * x;
    Regroup(q, x, t);
    TimesPositive(n as real - 0.5, y, t);
    TimesStrict(y, n as real + 0.5, t);
    assert y * t == (e * c) as real;
    assert (n as real - 0.5) * t == (r * n) as real - 0.5 * t;
    assert (n as real + 0.5) * t == (r * n) as real + 0.5 * t;
  }

  lemma {:induction false} Regroup(q: real, x: real, t: real)
    ensures q * x * t == q * t * x
  {
  }

  lemma {:induction false} TimesPositive(a: real, b: real, t: real)
    requires t > 0.0 && a <= b
    ensures a * t <= b * t
  {
  }

  lemma {:induction false} TimesStrict(a: real, b: real, t: real)
    requires t > 0.0 && a < b
    ensures a * t < b * t
  {
  }

  /** Scaling never reports less than was counted when the counter was enabled at least as long as it ran. */
  lemma {:induction false} ScalingExtrapolates(last: ProfileValue, current: ProfileValue)
    requires current.value >= last.value && current.running >= last.running
    requires current.enabled - last.enabled >= current.running - last.running
    ensures ScaleCounter(last, current) >= current.value - last.value
    ensures current.enabled - last.enabled == current.running - last.running ==>
      ScaleCounter(last, current) == current.value - last.value
  {
    var e, r, c := current.enabled - last.enabled, current.running - last.running, current.value - last.value;
    assert e % WORD == e && r % WORD == r;
    if r > 0 {
      ScaledAtLeast(e, r, c);
    }
  }

  lemma {:induction false} ScaledAtLeast(e: int, r: int, c: int)
    requires e >= r > 0 && c >= 0
    ensures Round((e as real / r as real) * c as real) >= c
    ensures e == r ==> Round((e as real / r as real) * c as real) == c
  {
    var q, x := e as real / r as real, c as real;
    assert q >= 1.0;
    assert (q - 1.0) * x >= 0.0;
    assert q * x == (q - 1.0) * x + x;
    if e == r {
      assert q == 1.0;
      assert q * x == x;
    }
  }

  lemma {:induction false} ScalingNonNegative(last: ProfileValue, current: ProfileValue)
    ensures ScaleCounter(last, current) >= 0
  {
    var e, r := (current.enabled - last.enabled) % WORD, (current.running - last.running) % WORD;
    if current.running > last.running {
      assert r > 0;
      var c := if current.value < last.value then (last.value + current.value) % WORD else current.value - last.value;
      assert e as real / r as real >= 0.0;
      assert (e as real / r as real) * c as real >= 0.0;
    }
  }

  /* ---- The steps of one scrape ---- */

  function OpenProc(s: State, uuid: string, p: Proc): State
  {
    if p.pid in s.profilers || !p.opens then s
    else s.(profilers := s.profilers[p.pid := s.numOpened], numOpened := s.numOpened + 1,
            lives := s.lives[s.numOpened := Life(uuid, map[])])
  }

  function OpenProcs(s: State, uuid: string, procs: seq<Proc>): State
  {
    if procs == [] then s else OpenProc(OpenProcs(s, uuid, procs[..|procs|-1]), uuid, procs[|procs|-1])
  }

  function OpenAll(s: State, cgroups: seq<Cgroup>): State
  {
    if cgroups == [] then s
    else OpenProcs(OpenAll(s, cgroups[..|cgroups|-1]), cgroups[|cgroups|-1].uuid, cgroups[|cgroups|-1].procs)
  }

  function ProcPids(procs: seq<Proc>): seq<int>
  {
    seq(|procs|, i requires 0 <= i < |procs| => procs[i].pid)
  }

  function ActivePids(cgroups: seq<Cgroup>): seq<int>
  {
    if cgroups == [] then [] else ActivePids(cgroups[..|cgroups|-1]) + ProcPids(cgroups[|cgroups|-1].procs)
  }

  function ActiveUuids(cgroups: seq<Cgroup>): seq<string>
  {
    seq(|cgroups|, i requires 0 <= i < |cgroups| => cgroups[i].uuid)
  }

  function Close(s: State, pids: seq<int>): State
  {
    s.(profilers := map p | p in s.profilers && p in pids :: s.profilers[p])
  }

  /** updateStateMaps; profilers of cgroups that are gone leave the record with their cgroup's total. */
  function Refresh(s: State, pids: seq<int>, uuids: seq<string>): State
  {
    s.(
      lastRaw := map p | p in pids :: Raw(s, p),
      totals := map u | u in uuids :: if u in s.totals then s.totals[u] else map[],
      lives := map i | i in s.lives && s.lives[i].uuid in uuids :: s.lives[i])
  }

  /** The profiles read for one cgroup: processes without a profiler or with a failed read are skipped. */
  function Profiles(profilers: map<int, nat>, procs: seq<Proc>): map<int, Profile>
  {
    if procs == [] then map[]
    else
      var r, p := Profiles(profilers, procs[..|procs|-1]), procs[|procs|-1];
      if p.pid in profilers && p.read.Some? then r[p.pid := p.read.value] else r
  }

  const HW_METRICS: seq<Metric> :=
    [CpuCycles, Instructions, BranchInstructions, BranchMisses, CacheRefs, CacheMisses, RefCpuCycles]

  /** The first n metrics of one profile added to a cgroup's counters. */
  function AddMetrics(c: Counters, last: Profile, p: Profile, n: nat): Counters
    requires n <= |HW_METRICS|
  {
    if n == 0 then c
    else
      var d, m := AddMetrics(c, last, p, n - 1), HW_METRICS[n-1];
      if m in p then d[m := Counter(d, m) + ScaleCounter(ValueAt(last, m), p[m])] else d
  }

  function AddProfile(c: Counters, last: Profile, p: Profile): Counters
  {
    AddMetrics(c, last, p, |HW_METRICS|)
  }

  lemma {:induction false} AddMetricsAt(c: Counters, last: Profile, p: Profile, n: nat, m: Metric)
    requires n <= |HW_METRICS|
    ensures Counter(AddMetrics(c, last, p, n), m)
      == Counter(c, m) + if m in p && m in HW_METRICS[..n] then ScaleCounter(ValueAt(last, m), p[m]) else 0
  {
    if n > 0 {
      AddMetricsAt(c, last, p, n - 1, m);
      PrefixStep(HW_METRICS, n - 1);
      assert HW_METRICS[n-1] !in HW_METRICS[..n-1];
    }
  }

  lemma {:induction false} AllMetrics(m: Metric)
    ensures m in HW_METRICS
  {
    assert m == HW_METRICS[0] || m == HW_METRICS[1] || m == HW_METRICS[2] || m == HW_METRICS[3]
        || m == HW_METRICS[4] || m == HW_METRICS[5] || m == HW_METRICS[6];
  }

  /** Every counter of the profile is added once, scaled against what was remembered. */
  lemma {:induction false} AddProfileAt(c: Counters, last: Profile, p: Profile, m: Metric)
    ensures Counter(AddProfile(c, last, p), m) == Counter(c, m)
      + if m in p then ScaleCounter(ValueAt(last, m), p[m]) else 0
  {
    AddMetricsAt(c, last, p, |HW_METRICS|, m);
    AllMetrics(m);
    PrefixAll(HW_METRICS);
  }

  function ReadPid(s: State, uuid: string, pid: int, p: Profile): State
    requires uuid in s.totals
  {
    s.(
      lastRaw := s.lastRaw[pid := Raw(s, pid) + p],
      totals := s.totals[uuid := AddProfile(s.totals[uuid], Raw(s, pid), p)],
      lives := RecordRead(s.lives, s.profilers, pid, p))
  }

  function RecordRead(lives: map<nat, Life>, profilers: map<int, nat>, pid: int, p: Profile): map<nat, Life>
  {
    if pid in profilers && profilers[pid] in lives then
      lives[profilers[pid] := Life(lives[profilers[pid]].uuid, lives[profilers[pid]].last + p)]
    else lives
  }

  /** aggHardwareCounters, for one order in which the runtime may walk the profile map. */
  function ReadPids(s: State, uuid: string, profiles: map<int, Profile>, order: seq<int>): (r: State)
    requires uuid in s.totals && forall i :: 0 <= i < |order| ==> order[i] in profiles
    ensures r.totals.Keys == s.totals.Keys
  {
    if order == [] then s
    else ReadPid(ReadPids(s, uuid, profiles, order[..|order|-1]), uuid, order[|order|-1], profiles[order[|order|-1]])
  }

  /** An order of walking a map visits every key once. */
  ghost predicate Walks(order: seq<int>, keys: set<int>)
  {
    && (forall i, j :: 0 <= i < j < |order| ==> order[i] != order[j])
    && (forall p :: p in order <==> p in keys)
  }

  ghost predicate WalksAll(s: State, cgroups: seq<Cgroup>, orders: seq<seq<int>>)
  {
    |orders| == |cgroups| && forall i :: 0 <= i < |cgroups| ==>
        Walks(orders[i], Profiles(s.profilers, cgroups[i].procs).Keys)
  }

  lemma {:induction false} WalkedIn(order: seq<int>, keys: set<int>, i: nat)
    requires Walks(order, keys) && i < |order|
    ensures order[i] in keys
  {
    assert order[i] in order;
  }

  lemma {:induction false} LastWalks(s: State, cgroups: seq<Cgroup>, orders: seq<seq<int>>)
    requires WalksAll(s, cgroups, orders) && cgroups != []
    ensures var n := |cgroups| - 1;
      && WalksAll(s, cgroups[..n], orders[..n])
      && forall i :: 0 <= i < |orders[n]| ==> orders[n][i] in Profiles(s.profilers, cgroups[n].procs)
  {
    var n := |cgroups| - 1;
    assert Walks(orders[n], Profiles(s.profilers, cgroups[n].procs).Keys);
    forall i | 0 <= i < n ensures Walks(orders[..n][i], Profiles(s.profilers, cgroups[..n][i].procs).Keys) {
      assert Walks(orders[i], Profiles(s.profilers, cgroups[i].procs).Keys);
    }
    forall i | 0 <= i < |orders[n]| ensures orders[n][i] in Profiles(s.profilers, cgroups[n].procs) {
      WalkedIn(orders[n], Profiles(s.profilers, cgroups[n].procs).Keys, i);
    }
  }

  function ReadCgroups(s: State, cgroups: seq<Cgroup>, orders: seq<seq<int>>): (r: State)
    requires WalksAll(s, cgroups, orders)
    requires forall i :: 0 <= i < |cgroups| ==> cgroups[i].uuid in s.totals
    ensures r.totals.Keys == s.totals.Keys && r.profilers == s.profilers
  {
    if cgroups == [] then s
    else
      var n := |cgroups| - 1;
      LastWalks(s, cgroups, orders);
      var r := ReadCgroups(s, cgroups[..n], orders[..n]);
      ReadPidsFrame(r, cgroups[n].uuid, Profiles(s.profilers, cgroups[n].procs), orders[n]);
      ReadPids(r, cgroups[n].uuid, Profiles(s.profilers, cgroups[n].procs), orders[n])
  }

  lemma {:induction false} ReadPidsFrame(s: State, uuid: string, profiles: map<int, Profile>, order: seq<int>)
    requires uuid in s.totals && forall i :: 0 <= i < |order| ==> order[i] in profiles
    ensures ReadPids(s, uuid, profiles, order).profilers == s.profilers
    ensures ReadPids(s, uuid, profiles, order).numOpened == s.numOpened
  {
    if order != [] {
      ReadPidsFrame(s, uuid, profiles, order[..|order|-1]);
    }
  }

  /** The state after opening, closing and evicting: what the reads start from. */
  function Prepared(s: State, cgroups: seq<Cgroup>): State
  {
    Refresh(Close(OpenAll(s, cgroups), ActivePids(cgroups)), ActivePids(cgroups), ActiveUuids(cgroups))
  }

  ghost predicate ValidOrders(s: State, cgroups: seq<Cgroup>, orders: seq<seq<int>>)
  {
    WalksAll(Prepared(s, cgroups), cgroups, orders)
  }

  lemma {:induction false} UuidsActive(s: State, cgroups: seq<Cgroup>)
    ensures forall i :: 0 <= i < |cgroups| ==> cgroups[i].uuid in Prepared(s, cgroups).totals
  {
    forall i | 0 <= i < |cgroups|
      ensures cgroups[i].uuid in Prepared(s, cgroups).totals
    {
      assert ActiveUuids(cgroups)[i] == cgroups[i].uuid;
    }
  }

  /** One scrape; a scrape without cgroups changes nothing. */
  function Scrape(s: State, cgroups: seq<Cgroup>, orders: seq<seq<int>>): State
    requires ValidOrders(s, cgroups, orders)
  {
    if cgroups == [] then s
    else
      UuidsActive(s, cgroups);
      ReadCgroups(Prepared(s, cgroups), cgroups, orders)
  }
}
