/**
 * What the numbers of a batch mean: the samples a unit needs, the samples that are available, the evaluation interval
 * and the time window (cmd/cacct/tsdb.go). Each is stated on its inputs, without the functions that compute it.
 */
module BatchNumbers {
  import opened Batches

  /* ---- Conversion and division ---- */

  /** The whole number next to x on the side of zero. */
  lemma {:induction false} TruncateIs(x: real)
    ensures x >= 0.0 ==> 0 <= Truncate(x) && Truncate(x) as real <= x < Truncate(x) as real + 1.0
    ensures x <= 0.0 ==> Truncate(x) <= 0 && Truncate(x) as real - 1.0 < x <= Truncate(x) as real
  {
  }

  lemma {:induction false} QuotientOf(a: nat, b: nat)
    requires b > 0
    ensures 0 <= a - b * (a / b) < b
  {
  }

  lemma {:induction false} SignedProduct(n: int, d: int)
    ensures n * -d == -(n * d) == -n * d && -n * -d == n * d
  {
  }

  lemma {:induction false} RestIs(a: int, b: int, d: int, q: int)
    requires b != 0 && 0 <= Abs(a) - Abs(b) * d < Abs(b)
    requires q == if (a >= 0) == (b > 0) then d else -d
    ensures var rest := a - b * q;
      && (if a >= 0 then 0 <= rest else rest <= 0)
      && (if b > 0 then -b < rest < b else b < rest < -b)
  {
    SignedProduct(Abs(b), d);
    if a >= 0 {
      assert b * q == Abs(b) * d;
    } else {
      assert b * q == -(Abs(b) * d);
    }
  }

  /** What division leaves is smaller than the divisor and has the sign of the dividend. */
  lemma {:induction false} QuotientIs(a: int, b: int)
    requires b != 0
    ensures var rest := a - b * Quotient(a, b);
      && (if a >= 0 then 0 <= rest else rest <= 0)
      && (if b > 0 then -b < rest < b else b < rest < -b)
  {
    QuotientOf(Abs(a), Abs(b));
    RestIs(a, b, Abs(a) / Abs(b), Quotient(a, b));
  }

  /* ---- Samples ---- */

  /** So many whole intervals fit between start and end, but one at least. */
  ghost predicate StepsBetween(steps: int, start: int, end: int, interval: int)
  {
    && steps >= 1
    && (steps > 1 ==> start + interval * steps <= end)
    && end < start + interval * (steps + 1)
  }

  /** A unit needs as many samples of each series as scrapes fit between its start and the latest end. */
  lemma {:induction false} UnitSamplesAre(u: Unit, latest: int, settings: Settings) returns (steps: int)
    requires settings.scrapeMs > 0
    ensures StepsBetween(steps, u.startedAt, latest, settings.scrapeMs)
    ensures UnitSamples(u, latest, settings) == steps * settings.maxSeries
  {
    var q := Quotient(latest - u.startedAt, settings.scrapeMs);
    QuotientIs(latest - u.startedAt, settings.scrapeMs);
    steps := if q > 1 then q else 1;
    if q < 1 {
      ProductAtMost(settings.scrapeMs, q);
    }
  }

  lemma {:induction false} ProductAtMost(a: int, q: int)
    requires a > 0 && q <= 0
    ensures a * q <= 0
  {
  }

  /** The available samples are the given part of the query's limit, without the fraction. */
  lemma {:induction false} AvailableAre(settings: Settings)
    ensures var part := settings.maxSamples as real * settings.minSamples;
      && (part >= 0.0 ==> AvailableSamples(settings) as real <= part < AvailableSamples(settings) as real + 1.0)
      && (AvailableSamples(settings) > 0 <==> part >= 1.0)
  {
    TruncateIs(settings.maxSamples as real * settings.minSamples);
  }

  lemma {:induction false} Scaled(lo: real, hi: real, seconds: real, r: real, samples: real, available: real)
    requires available > 0.0 && lo <= seconds * r < hi && r * available == samples
    ensures lo * available <= seconds * samples < hi * available
  {
    Associate(seconds, r, available);
    ScaledBy(lo, seconds * r, available);
    ScaledBelow(seconds * r, hi, available);
  }

  lemma {:induction false} Associate(a: real, b: real, c: real)
    ensures a * b * c == a * (b * c)
  {
  }

  lemma {:induction false} ScaledBy(a: real, b: real, c: real)
    requires c > 0.0 && a <= b
    ensures a * c <= b * c
  {
  }

  lemma {:induction false} ScaledBelow(a: real, b: real, c: real)
    requires c > 0.0 && a < b
    ensures a * c < b * c
  {
  }

  /** Within the budget the interval is that of the settings; over it, it grows in proportion. */
  lemma {:induction false} IntervalIs(samples: int, available: int, settings: Settings)
    requires available > 0 && settings.evaluationSeconds >= 0.0 && samples >= 0
    ensures var e, seconds := EvaluationInterval(samples, available, settings), settings.evaluationSeconds;
      && (samples <= available ==> e as real <= seconds < e as real + 1.0)
      && (samples > available ==>
            e as real * available as real <= seconds * samples as real < (e as real + 1.0) * available as real)
  {
    var ratio := samples as real / available as real;
    RatioOne(samples, available);
    if samples <= available {
      TruncateIs(settings.evaluationSeconds);
    } else {
      ProductPositive(settings.evaluationSeconds, ratio);
      TruncateIs(settings.evaluationSeconds * ratio);
      var e := EvaluationInterval(samples, available, settings);
      Scaled(e as real, e as real + 1.0, settings.evaluationSeconds, ratio, samples as real, available as real);
    }
  }

  lemma {:induction false} ProductPositive(a: real, b: real)
    requires a >= 0.0 && b >= 0.0
    ensures a * b >= 0.0
  {
  }

  lemma {:induction false} RatioOne(a: int, b: int)
    requires b > 0
    ensures a as real / b as real > 1.0 <==> a > b
  {
    var r := a as real / b as real;
    assert r * b as real == a as real;
    if r > 1.0 {
      ScaledBelow(1.0, r, b as real);
    } else {
      ScaledBy(r, 1.0, b as real);
    }
  }

  /* ---- The window ---- */

  lemma {:induction false} FirstStartAt(group: seq<Unit>) returns (i: nat)
    requires group != []
    ensures i < |group| && group[i].startedAt == FirstStart(group)
    ensures forall k :: 0 <= k < |group| ==> group[i].startedAt <= group[k].startedAt
  {
    var n := |group| - 1;
    if n == 0 {
      i := 0;
    } else {
      i := FirstStartAt(group[..n]);
      assert forall k :: 0 <= k < n ==> group[k] == group[..n][k];
      if group[n].startedAt < group[i].startedAt {
        i := n;
      }
    }
  }

  lemma {:induction false} LastEndAt(group: seq<Unit>) returns (i: nat)
    requires group != []
    ensures i < |group| && group[i].endedAt == LastEnd(group)
    ensures forall k :: 0 <= k < |group| ==> group[k].endedAt <= group[i].endedAt
  {
    var n := |group| - 1;
    if n == 0 {
      i := 0;
    } else {
      i := LastEndAt(group[..n]);
      assert forall k :: 0 <= k < n ==> group[k] == group[..n][k];
      if group[n].endedAt > group[i].endedAt {
        i := n;
      }
    }
  }

  /** A batch names its units in order, and its window goes from their first start to their last end. */
  lemma {:induction false} BatchIs(batches: seq<Batch>, groups: seq<seq<Unit>>, latest: int, settings: Settings, k: nat)
      returns (first: nat, last: nat)
    requires settings.scrapeMs != 0 && MadeFrom(batches, groups, latest, settings) && k < |batches|
    ensures |batches[k].uuids| == |groups[k]|
    ensures forall i :: 0 <= i < |groups[k]| ==> batches[k].uuids[i] == groups[k][i].uuid
    ensures first < |groups[k]| && groups[k][first].startedAt == batches[k].queryTime - batches[k].duration
    ensures last < |groups[k]| && groups[k][last].endedAt == batches[k].queryTime
    ensures forall i :: 0 <= i < |groups[k]| ==>
      groups[k][first].startedAt <= groups[k][i].startedAt && groups[k][i].endedAt <= groups[k][last].endedAt
  {
    assert batches[k] == GroupBatch(groups[k], latest, settings);
    first := FirstStartAt(groups[k]);
    last := LastEndAt(groups[k]);
  }
}
