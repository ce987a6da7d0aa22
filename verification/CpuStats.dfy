/** The CPU counters of a node, which must not run backwards (pkg/collector/cpu.go). */
module CpuStats {

  const JUMP_BACK_SECONDS := 3.0

  /** Seconds the CPUs spent in each mode. */
  datatype CpuStat = CpuStat(user: real, nice: real, system: real, idle: real, iowait: real, irq: real, softIRQ: real,
                             steal: real, guest: real, guestNice: real)

  const ZERO := CpuStat(0.0, 0.0, 0.0, 0.0, 0.0, 0.0, 0.0, 0.0, 0.0, 0.0)

  datatype Mode = User | Nice | System | Idle | Iowait | IRQ | SoftIRQ | Steal | Guest | GuestNice

  function Seconds(s: CpuStat, mode: Mode): real
  {
    match mode
    case User => s.user
    case Nice => s.nice
    case System => s.system
    case Idle => s.idle
    case Iowait => s.iowait
    case IRQ => s.irq
    case SoftIRQ => s.softIRQ
    case Steal => s.steal
    case Guest => s.guest
    case GuestNice => s.guestNice
  }

  predicate JumpsBack(cached: CpuStat, reading: CpuStat)
  {
    cached.idle - reading.idle >= JUMP_BACK_SECONDS
  }

  predicate IsLarger(a: real, b: real, r: real)
  {
    r >= a && r >= b && (r == a || r == b)
  }

  /** What the cache is after a reading: per mode the larger of the two, or of the reading and nothing after a jump. */
  ghost predicate Updated(cached: CpuStat, reading: CpuStat, after: CpuStat)
  {
    var base := Base(cached, reading);
    && IsLarger(base.user, reading.user, after.user)
    && IsLarger(base.nice, reading.nice, after.nice)
    && IsLarger(base.system, reading.system, after.system)
    && IsLarger(base.idle, reading.idle, after.idle)
    && IsLarger(base.iowait, reading.iowait, after.iowait)
    && IsLarger(base.irq, reading.irq, after.irq)
    && IsLarger(base.softIRQ, reading.softIRQ, after.softIRQ)
    && IsLarger(base.steal, reading.steal, after.steal)
    && IsLarger(base.guest, reading.guest, after.guest)
    && IsLarger(base.guestNice, reading.guestNice, after.guestNice)
  }

  lemma {:induction false} UpdatedMode(cached: CpuStat, reading: CpuStat, after: CpuStat, mode: Mode)
    requires Updated(cached, reading, after)
    ensures Seconds(after, mode) == Larger(Seconds(Base(cached, reading), mode), Seconds(reading, mode))
  {
  }

  function Base(cached: CpuStat, reading: CpuStat): CpuStat
  {
    if JumpsBack(cached, reading) then ZERO else cached
  }

  function Larger(a: real, b: real): real
  {
    if b >= a then b else a
  }

  /** A counter that jumped backwards keeps its value. */
  method KeepForward(cached: real, reading: real) returns (r: real)
    ensures IsLarger(cached, reading, r)
  {
    r := cached;
    if reading >= cached {
      r := reading;
    }
  }

  class CpuCollector {
    var cpuStats: CpuStat

    constructor ()
      ensures cpuStats == ZERO
    {
      cpuStats := ZERO;
    }

    method UpdateCPUStats(newStats: CpuStat)
      modifies this
      ensures Updated(old(cpuStats), newStats, cpuStats)
    {
      var stats := cpuStats;
      if stats.idle - newStats.idle >= JUMP_BACK_SECONDS {
        stats := ZERO;
      }
      var idle := KeepForward(stats.idle, newStats.idle);
      var user := KeepForward(stats.user, newStats.user);
      var nice := KeepForward(stats.nice, newStats.nice);
      var system := KeepForward(stats.system, newStats.system);
      var iowait := KeepForward(stats.iowait, newStats.iowait);
      var irq := KeepForward(stats.irq, newStats.irq);
      var softIRQ := KeepForward(stats.softIRQ, newStats.softIRQ);
      var steal := KeepForward(stats.steal, newStats.steal);
      var guest := KeepForward(stats.guest, newStats.guest);
      var guestNice := KeepForward(stats.guestNice, newStats.guestNice);
      cpuStats := CpuStat(user, nice, system, idle, iowait, irq, softIRQ, steal, guest, guestNice);
    }
  }

  /* ---- Whole runs ---- */

  /** The caches of a run: nothing at first, then one after each reading. */
  ghost predicate Run(readings: seq<CpuStat>, caches: seq<CpuStat>)
  {
    && |caches| == |readings| + 1 && caches[0] == ZERO
    && forall i :: 0 <= i < |readings| ==> Updated(caches[i], readings[i], caches[i+1])
  }

  ghost predicate NonNegative(readings: seq<CpuStat>)
  {
    forall i, mode :: 0 <= i < |readings| ==> Seconds(readings[i], mode) >= 0.0
  }

  /** The reading from which the cache counts: the last at which idle time jumped back, or the first of all. */
  ghost predicate CountsFrom(readings: seq<CpuStat>, caches: seq<CpuStat>, from: nat)
    requires Run(readings, caches)
  {
    && from < |readings|
    && (from == 0 || JumpsBack(caches[from], readings[from]))
    && forall i :: from < i < |readings| ==> !JumpsBack(caches[i], readings[i])
  }

  /** The largest reading of a mode among those from one position on. */
  ghost predicate IsMaximum(readings: seq<CpuStat>, from: nat, mode: Mode, max: real)
  {
    && (forall i :: from <= i < |readings| ==> Seconds(readings[i], mode) <= max)
    && exists i :: from <= i < |readings| && Seconds(readings[i], mode) == max
  }

  lemma {:induction false} RunBefore(readings: seq<CpuStat>, caches: seq<CpuStat>)
    requires Run(readings, caches) && readings != []
    ensures Run(readings[..|readings|-1], caches[..|readings|])
  {
  }

  /** Some reading is the one from which the cache counts. */
  lemma {:induction false} CountsFromSome(readings: seq<CpuStat>, caches: seq<CpuStat>) returns (from: nat)
    requires Run(readings, caches) && readings != []
    ensures CountsFrom(readings, caches, from)
  {
    var n := |readings| - 1;
    if n == 0 || JumpsBack(caches[n], readings[n]) {
      from := n;
    } else {
      RunBefore(readings, caches);
      from := CountsFromSome(readings[..n], caches[..n+1]);
    }
  }

  lemma {:induction false} MaximumNext(readings: seq<CpuStat>, from: nat, mode: Mode, before: real, n: nat)
    requires from <= n && |readings| == n + 1
    requires from < n ==> IsMaximum(readings[..n], from, mode, before)
    requires from == n ==> before == 0.0 <= Seconds(readings[n], mode)
    ensures IsMaximum(readings, from, mode, Larger(before, Seconds(readings[n], mode)))
  {
    var max := Larger(before, Seconds(readings[n], mode));
    if from < n {
      var i :| from <= i < n && Seconds(readings[..n][i], mode) == before;
      assert Seconds(readings[i], mode) == before;
      forall k | from <= k < |readings|
        ensures Seconds(readings[k], mode) <= max
      {
        assert k < n ==> readings[..n][k] == readings[k];
      }
    }
    assert Seconds(readings[n], mode) <= max;
  }

  /** Every cached counter is the largest reading since the last jump. */
  lemma {:induction false} CachedIsMaximum(readings: seq<CpuStat>, caches: seq<CpuStat>, from: nat, mode: Mode)
    requires Run(readings, caches) && NonNegative(readings) && CountsFrom(readings, caches, from)
    ensures IsMaximum(readings, from, mode, Seconds(caches[|readings|], mode))
  {
    var n := |readings| - 1;
    var base := Base(caches[n], readings[n]);
    UpdatedMode(caches[n], readings[n], caches[n+1], mode);
    if from < n {
      RunBefore(readings, caches);
      CachedIsMaximum(readings[..n], caches[..n+1], from, mode);
    } else {
      ZeroSeconds(mode);
    }
    MaximumNext(readings, from, mode, Seconds(base, mode), n);
  }

  lemma {:induction false} ZeroSeconds(mode: Mode)
    ensures Seconds(ZERO, mode) == 0.0
  {
  }

  /** The cached idle time is never behind the latest reading, nor three seconds or more ahead of it. */
  lemma {:induction false} IdleWithinJump(readings: seq<CpuStat>, caches: seq<CpuStat>, k: nat)
    requires Run(readings, caches) && NonNegative(readings) && k < |readings|
    ensures readings[k].idle <= caches[k+1].idle < readings[k].idle + 3.0
  {
    UpdatedMode(caches[k], readings[k], caches[k+1], Idle);
    assert Seconds(readings[k], Idle) >= 0.0;
    assert Seconds(caches[k+1], Idle) == caches[k+1].idle && Seconds(caches[k], Idle) == caches[k].idle;
  }

  /** Idle time falls exactly at a jump back, and no counter falls at any other reading. */
  lemma {:induction false} FallsOnlyAtJump(readings: seq<CpuStat>, caches: seq<CpuStat>, k: nat, mode: Mode)
    requires Run(readings, caches) && NonNegative(readings) && k < |readings|
    ensures Seconds(caches[k+1], mode) < Seconds(caches[k], mode) ==> JumpsBack(caches[k], readings[k])
    ensures caches[k+1].idle < caches[k].idle <==> JumpsBack(caches[k], readings[k])
    ensures JumpsBack(caches[k], readings[k]) ==> Seconds(caches[k+1], mode) == Seconds(readings[k], mode)
  {
    UpdatedMode(caches[k], readings[k], caches[k+1], Idle);
    UpdatedMode(caches[k], readings[k], caches[k+1], mode);
    assert Seconds(readings[k], Idle) >= 0.0 && Seconds(readings[k], mode) >= 0.0;
    assert Seconds(caches[k+1], Idle) == caches[k+1].idle && Seconds(caches[k], Idle) == caches[k].idle;
  }
}
