/** Batches of units for queries to the time series database (cmd/cacct/tsdb.go). */
module Batches {
  import opened Chunks
  import opened Seqs

  /** The parts of a unit that batching reads; times are in milliseconds. */
  datatype Unit = Unit(uuid: string, startedAt: int, endedAt: int)

  datatype Settings = Settings(maxSamples: int, minSamples: real, maxSeries: int, scrapeMs: int,
      evaluationSeconds: real)

  /** A batch is queried at queryTime over the duration, in milliseconds, before it. */
  datatype Batch = Batch(uuids: seq<string>, duration: int, queryTime: int, evaluationSeconds: int)

  /** Conversion to an integer drops the fraction. */
  function Truncate(x: real): int
  {
    if x >= 0.0 then x.Floor else -(-x).Floor
  }

  /** Integer division that rounds toward zero. */
  function Quotient(a: int, b: int): int
    requires b != 0
  {
    if (a >= 0) == (b > 0) then Abs(a) / Abs(b) else -(Abs(a) / Abs(b))
  }

  function Abs(a: int): nat
  {
    if a < 0 then -a else a
  }

  function AvailableSamples(settings: Settings): int
  {
    Truncate(settings.maxSamples as real * settings.minSamples)
  }

  /** The samples a unit is expected to need if it runs until the latest end. */
  function UnitSamples(u: Unit, latest: int, settings: Settings): int
    requires settings.scrapeMs != 0
  {
    var steps := Quotient(latest - u.startedAt, settings.scrapeMs);
    (if steps > 1 then steps else 1) * settings.maxSeries
  }

  function AllSamples(units: seq<Unit>, latest: int, settings: Settings): (s: seq<int>)
    requires settings.scrapeMs != 0
    ensures |s| == |units|
  {
    seq(|units|, i requires 0 <= i < |units| => UnitSamples(units[i], latest, settings))
  }

  function Uuids(units: seq<Unit>): (s: seq<string>)
    ensures |s| == |units|
  {
    seq(|units|, i requires 0 <= i < |units| => units[i].uuid)
  }

  /** The latest end of all units, or zero if none ends after that. */
  ghost predicate LatestEnd(latest: int, units: seq<Unit>)
  {
    && latest >= 0
    && (forall u :: u in units ==> u.endedAt <= latest)
    && (latest == 0 || exists u :: u in units && u.endedAt == latest)
  }

  /** Ordered by walltime: the unit that started last comes first. */
  ghost predicate ByWalltime(units: seq<Unit>)
  {
    forall i, j :: 0 <= i < j < |units| ==> units[i].startedAt >= units[j].startedAt
  }

  function Earlier(a: int, b: int): int
  {
    if b < a then b else a
  }

  function Later(a: int, b: int): int
  {
    if b > a then b else a
  }

  function FirstStart(units: seq<Unit>): int
    requires units != []
  {
    if |units| == 1 then units[0].startedAt else Earlier(FirstStart(units[..|units|-1]), units[|units|-1].startedAt)
  }

  function LastEnd(units: seq<Unit>): int
    requires units != []
  {
    if |units| == 1 then units[0].endedAt else Later(LastEnd(units[..|units|-1]), units[|units|-1].endedAt)
  }

  /** The evaluation interval grows with the samples that a batch is over the budget. */
  function EvaluationInterval(samples: int, available: int, settings: Settings): int
    requires available > 0
  {
    var ratio := samples as real / available as real;
    Truncate(settings.evaluationSeconds * (if ratio > 1.0 then ratio else 1.0))
  }

  function BatchOf(group: seq<Unit>, samples: int, available: int, settings: Settings): Batch
    requires group != [] && available > 0
  {
    Batch(Uuids(group), LastEnd(group) - FirstStart(group), LastEnd(group),
        EvaluationInterval(samples, available, settings))
  }

  /** The batches are made from these groups of units. */
  ghost predicate MadeFrom(batches: seq<Batch>, groups: seq<seq<Unit>>, latest: int, settings: Settings)
    requires settings.scrapeMs != 0
  {
    && AvailableSamples(settings) > 0
    && |batches| == |groups|
    && forall k :: 0 <= k < |batches| ==> groups[k] != [] && batches[k] == GroupBatch(groups[k], latest, settings)
  }

  function GroupBatch(group: seq<Unit>, latest: int, settings: Settings): Batch
    requires group != [] && settings.scrapeMs != 0 && AvailableSamples(settings) > 0
  {
    BatchOf(group, Sum(AllSamples(group, latest, settings)), AvailableSamples(settings), settings)
  }

  /** The groups cut the units, put in order of walltime, as the greedy chunker does. */
  ghost predicate Grouped(groups: seq<seq<Unit>>, units: seq<Unit>, latest: int, settings: Settings)
    requires settings.scrapeMs != 0
  {
    && multiset(Concat(groups)) == multiset(units)
    && ByWalltime(Concat(groups))
    && Tight(GroupSamples(groups, latest, settings), AvailableSamples(settings))
    && forall k :: 0 <= k < |groups| ==> ValidChunk(AllSamples(groups[k], latest, settings), AvailableSamples(settings))
  }

  function GroupSamples(groups: seq<seq<Unit>>, latest: int, settings: Settings): (s: seq<seq<int>>)
    requires settings.scrapeMs != 0
    ensures |s| == |groups|
  {
    seq(|groups|, i requires 0 <= i < |groups| => AllSamples(groups[i], latest, settings))
  }

  /* ---- The steps ---- */

  method FindLatestEnd(units: seq<Unit>) returns (maxEndedAtTS: int)
    ensures LatestEnd(maxEndedAtTS, units)
  {
    maxEndedAtTS := 0;
    for iunit := 0 to |units|
      invariant LatestEnd(maxEndedAtTS, units[..iunit])
    {
      PrefixStep(units, iunit);
      if units[iunit].endedAt > maxEndedAtTS {
        maxEndedAtTS := units[iunit].endedAt;
        assert units[iunit] in units[..iunit+1];
      }
      assert forall u :: u in units[..iunit] ==> u in units[..iunit+1];
    }
    PrefixAll(units);
  }

  lemma {:induction false} InsertUnit(sorted: seq<Unit>, p: nat, u: Unit)
    requires p <= |sorted| && ByWalltime(sorted)
    requires p > 0 ==> sorted[p-1].startedAt >= u.startedAt
    requires p < |sorted| ==> sorted[p].startedAt <= u.startedAt
    ensures ByWalltime(sorted[..p] + [u] + sorted[p..])
  {
    var r := sorted[..p] + [u] + sorted[p..];
    forall i, j | 0 <= i < j < |r|
      ensures r[i].startedAt >= r[j].startedAt
    {
      if j == p {
        assert r[i] == sorted[i] && sorted[i].startedAt >= sorted[p-1].startedAt;
      } else if i == p {
        assert r[j] == sorted[j-1] && sorted[p].startedAt >= sorted[j-1].startedAt;
      } else {
        assert r[i] == sorted[if i < p then i else i - 1] && r[j] == sorted[if j < p then j else j - 1];
      }
    }
  }

  lemma {:induction false} InsertCount(sorted: seq<Unit>, p: nat, u: Unit)
    requires p <= |sorted|
    ensures multiset(sorted[..p] + [u] + sorted[p..]) == multiset(sorted) + multiset{u}
  {
    assert sorted == sorted[..p] + sorted[p..];
  }

  lemma {:induction false} CountStep(units: seq<Unit>, i: nat)
    requires i < |units|
    ensures multiset(units[..i+1]) == multiset(units[..i]) + multiset{units[i]}
  {
    PrefixStep(units, i);
  }

  /** Put one unit in its place among sorted units. */
  method Insert(sorted: seq<Unit>, u: Unit, maxEndedAtTS: int) returns (r: seq<Unit>)
    requires ByWalltime(sorted)
    ensures ByWalltime(r) && multiset(r) == multiset(sorted) + multiset{u}
  {
    var p: nat := |sorted|;
    while p > 0 && maxEndedAtTS - sorted[p-1].startedAt > maxEndedAtTS - u.startedAt
      invariant 0 <= p <= |sorted|
      invariant p < |sorted| ==> sorted[p].startedAt <= u.startedAt
    {
      p := p - 1;
    }
    InsertUnit(sorted, p, u);
    InsertCount(sorted, p, u);
    r := sorted[..p] + [u] + sorted[p..];
  }

  /** A sort by walltime. The library's sort does not say how it orders units that started together. */
  method SortByWalltime(units: seq<Unit>, maxEndedAtTS: int) returns (sorted: seq<Unit>)
    ensures multiset(sorted) == multiset(units)
    ensures ByWalltime(sorted)
  {
    sorted := [];
    for i := 0 to |units|
      invariant multiset(sorted) == multiset(units[..i])
      invariant ByWalltime(sorted)
    {
      CountStep(units, i);
      sorted := Insert(sorted, units[i], maxEndedAtTS);
    }
    PrefixAll(units);
  }

  /** The first start and the last end of the units from lo up to hi; before the first unit, its own. */
  predicate Spans(units: seq<Unit>, lo: nat, hi: nat, start: int, end: int)
    requires lo <= hi <= |units| && lo < |units|
  {
    if lo == hi then start == units[lo].startedAt && end == units[lo].endedAt
    else start == FirstStart(units[lo..hi]) && end == LastEnd(units[lo..hi])
  }

  lemma {:induction false} GroupNext(units: seq<Unit>, lo: nat, hi: nat, start: int, end: int)
    requires lo <= hi < |units| && Spans(units, lo, hi, start, end)
    ensures Uuids(units[lo..hi+1]) == Uuids(units[lo..hi]) + [units[hi].uuid]
    ensures Spans(units, lo, hi + 1, Earlier(start, units[hi].startedAt), Later(end, units[hi].endedAt))
  {
    SliceStep(units, lo, hi);
  }

  /** One batch: the units from the cursor on, one for each number of the chunk. */
  method FillBatch(unitsTmp: seq<Unit>, iunit: nat, chunk: seq<int>, available: int, settings: Settings)
    returns (batch: Batch, next: nat)
    requires chunk != [] && iunit + |chunk| <= |unitsTmp| && available > 0
    ensures next == iunit + |chunk|
    ensures batch == BatchOf(unitsTmp[iunit..next], Sum(chunk), available, settings)
  {
    var minStartedTS, maxEndedTS := unitsTmp[iunit].startedAt, unitsTmp[iunit].endedAt;
    var uuids, chunkSamples := [], 0;
    next := iunit;
    for i := 0 to |chunk|
      invariant next == iunit + i
      invariant uuids == Uuids(unitsTmp[iunit..next])
      invariant chunkSamples == Sum(chunk[..i])
      invariant Spans(unitsTmp, iunit, next, minStartedTS, maxEndedTS)
    {
      GroupNext(unitsTmp, iunit, next, minStartedTS, maxEndedTS);
      uuids := uuids + [unitsTmp[next].uuid];
      if unitsTmp[next].startedAt < minStartedTS {
        minStartedTS := unitsTmp[next].startedAt;
      }
      if unitsTmp[next].endedAt > maxEndedTS {
        maxEndedTS := unitsTmp[next].endedAt;
      }
      PrefixStep(chunk, i);
      SumAppend(chunk[..i], [chunk[i]]);
      next := next + 1;
      chunkSamples := chunkSamples + chunk[i];
    }
    PrefixAll(chunk);
    var ratio := chunkSamples as real / available as real;
    batch := Batch(uuids, maxEndedTS - minStartedTS, maxEndedTS,
                   Truncate(settings.evaluationSeconds * (if ratio > 1.0 then ratio else 1.0)));
  }

  lemma {:induction false} ConcatPrefix<T>(xs: seq<seq<T>>, k: nat)
    requires k < |xs|
    ensures Concat(xs[..k+1]) == Concat(xs[..k]) + xs[k]
    ensures Concat(xs[..k+1]) <= Concat(xs)
  {
    PrefixStep(xs, k);
    ConcatSnoc(xs[..k], xs[k]);
    assert xs == xs[..k+1] + xs[k+1..];
    ConcatAppend(xs[..k+1], xs[k+1..]);
  }

  /** The units read by the cursor so far, in groups whose samples are the chunks so far. */
  ghost predicate Cut(groups: seq<seq<Unit>>, chunks: seq<seq<int>>, k: nat, unitsTmp: seq<Unit>, iunit: nat,
      latest: int, settings: Settings)
    requires settings.scrapeMs != 0
  {
    && k <= |chunks| && iunit <= |unitsTmp|
    && Concat(groups) == unitsTmp[..iunit]
    && GroupSamples(groups, latest, settings) == chunks[..k]
    && |Concat(chunks[..k])| == iunit
  }

  /** The cursor stays within the units, and the next group needs the samples of the next chunk. */
  lemma {:induction false} CutStep(groups: seq<seq<Unit>>, chunks: seq<seq<int>>, k: nat, unitsTmp: seq<Unit>,
      iunit: nat, latest: int, settings: Settings)
    requires settings.scrapeMs != 0 && Cut(groups, chunks, k, unitsTmp, iunit, latest, settings)
    requires k < |chunks| && Concat(chunks) == AllSamples(unitsTmp, latest, settings)
    ensures iunit + |chunks[k]| <= |unitsTmp|
    ensures var group := unitsTmp[iunit..iunit+|chunks[k]|];
      && AllSamples(group, latest, settings) == chunks[k]
      && Cut(groups + [group], chunks, k + 1, unitsTmp, iunit + |chunks[k]|, latest, settings)
  {
    ConcatPrefix(chunks, k);
    var all, next := Concat(chunks), iunit + |chunks[k]|;
    var group := unitsTmp[iunit..next];
    assert all[..next] == Concat(chunks[..k]) + chunks[k];
    assert all[iunit..next] == chunks[k];
    assert AllSamples(group, latest, settings) == chunks[k];
    ConcatSnoc(groups, group);
    assert unitsTmp[..next] == unitsTmp[..iunit] + group;
    assert GroupSamples(groups + [group], latest, settings) == GroupSamples(groups, latest, settings) + [chunks[k]];
    PrefixStep(chunks, k);
  }

  lemma {:induction false} CutDone(groups: seq<seq<Unit>>, chunks: seq<seq<int>>, units: seq<Unit>,
      unitsTmp: seq<Unit>, iunit: nat, latest: int, settings: Settings)
    requires settings.scrapeMs != 0 && Cut(groups, chunks, |chunks|, unitsTmp, iunit, latest, settings)
    requires Partition(chunks, AllSamples(unitsTmp, latest, settings), AvailableSamples(settings))
    requires Tight(chunks, AvailableSamples(settings))
    requires multiset(unitsTmp) == multiset(units) && ByWalltime(unitsTmp)
    ensures Grouped(groups, units, latest, settings)
  {
    PrefixAll(chunks);
    PrefixAll(unitsTmp);
    forall k | 0 <= k < |groups|
      ensures ValidChunk(AllSamples(groups[k], latest, settings), AvailableSamples(settings))
    {
      assert GroupSamples(groups, latest, settings)[k] == chunks[k];
    }
  }

  /** All batches; the groups, which the source does not keep, are the units of each batch. */
  method ChunkByDuration(units: seq<Unit>, settings: Settings)
    returns (unitBatches: seq<Batch>, ghost latest: int, ghost groups: seq<seq<Unit>>)
    requires settings.scrapeMs != 0
    ensures LatestEnd(latest, units)
    ensures AvailableSamples(settings) <= 0 ==> unitBatches == []
    ensures AvailableSamples(settings) > 0 ==>
      MadeFrom(unitBatches, groups, latest, settings) && Grouped(groups, units, latest, settings)
  {
    var maxEndedAtTS := FindLatestEnd(units);
    latest := maxEndedAtTS;
    var unitsTmp := SortByWalltime(units, maxEndedAtTS);
    var availableSamples := AvailableSamples(settings);
    var unitSamples: seq<int> := [];
    for i := 0 to |unitsTmp|
      invariant unitSamples == AllSamples(unitsTmp[..i], maxEndedAtTS, settings)
    {
      PrefixStep(unitsTmp, i);
      unitSamples := unitSamples + [UnitSamples(unitsTmp[i], maxEndedAtTS, settings)];
    }
    PrefixAll(unitsTmp);
    var chunks := ChunkByMaxSum(unitSamples, availableSamples);
    unitBatches, groups := [], [];
    var iunit: nat := 0;
    for ichunk := 0 to |chunks|
      invariant Cut(groups, chunks, ichunk, unitsTmp, iunit, maxEndedAtTS, settings)
      invariant availableSamples > 0 ==> MadeFrom(unitBatches, groups, maxEndedAtTS, settings)
      invariant availableSamples <= 0 ==> unitBatches == []
    {
      assert ValidChunk(chunks[ichunk], availableSamples);
      CutStep(groups, chunks, ichunk, unitsTmp, iunit, maxEndedAtTS, settings);
      var batch, next := FillBatch(unitsTmp, iunit, chunks[ichunk], availableSamples, settings);
      groups := groups + [unitsTmp[iunit..next]];
      unitBatches := unitBatches + [batch];
      iunit := next;
    }
    if availableSamples > 0 {
      CutDone(groups, chunks, units, unitsTmp, iunit, maxEndedAtTS, settings);
    }
  }

  /* ---- Every unit is in a batch ---- */

  function BatchUuids(batches: seq<Batch>): (s: seq<seq<string>>)
    ensures |s| == |batches|
  {
    seq(|batches|, i requires 0 <= i < |batches| => batches[i].uuids)
  }

  lemma {:induction false} UuidsAppend(a: seq<Unit>, b: seq<Unit>)
    ensures Uuids(a + b) == Uuids(a) + Uuids(b)
  {
  }

  function Without(a: seq<Unit>, i: nat): seq<Unit>
    requires i < |a|
  {
    a[..i] + a[i+1..]
  }

  lemma {:induction false} UnitsWithout(a: seq<Unit>, i: nat)
    requires i < |a|
    ensures multiset(a) == multiset(Without(a, i)) + multiset{a[i]}
  {
    assert a == a[..i] + [a[i]] + a[i+1..];
  }

  lemma {:induction false} UuidsWithout(a: seq<Unit>, i: nat)
    requires i < |a|
    ensures multiset(Uuids(a)) == multiset(Uuids(Without(a, i))) + multiset{a[i].uuid}
  {
    var ids := Uuids(a);
    assert ids == ids[..i] + [ids[i]] + ids[i+1..];
    assert Uuids(Without(a, i)) == ids[..i] + ids[i+1..];
  }

  /** A permutation of the units is a permutation of their UUIDs. */
  lemma {:induction false} UuidsPermuted(a: seq<Unit>, b: seq<Unit>)
    requires multiset(a) == multiset(b)
    ensures multiset(Uuids(a)) == multiset(Uuids(b))
  {
    if a == [] {
      assert |multiset(b)| == 0;
    } else {
      assert a[0] in multiset(b);
      var i :| 0 <= i < |b| && b[i] == a[0];
      UnitsWithout(a, 0);
      UnitsWithout(b, i);
      assert multiset(Without(a, 0)) == multiset(a) - multiset{a[0]};
      assert multiset(Without(b, i)) == multiset(b) - multiset{a[0]};
      UuidsPermuted(Without(a, 0), Without(b, i));
      UuidsWithout(a, 0);
      UuidsWithout(b, i);
    }
  }

  lemma {:induction false} GroupUuids(batches: seq<Batch>, groups: seq<seq<Unit>>, latest: int, settings: Settings)
    requires settings.scrapeMs != 0 && MadeFrom(batches, groups, latest, settings)
    ensures Concat(BatchUuids(batches)) == Uuids(Concat(groups))
    decreases |batches|
  {
    if batches != [] {
      assert MadeFrom(batches[1..], groups[1..], latest, settings);
      GroupUuids(batches[1..], groups[1..], latest, settings);
      assert BatchUuids(batches)[1..] == BatchUuids(batches[1..]);
      assert batches[0] == GroupBatch(groups[0], latest, settings);
      UuidsAppend(groups[0], Concat(groups[1..]));
    }
  }

  /** The UUIDs of all batches are exactly those of the units, as often as they occur there. */
  lemma {:induction false} AllUnitsBatched(batches: seq<Batch>, groups: seq<seq<Unit>>, units: seq<Unit>, latest: int,
      settings: Settings)
    requires settings.scrapeMs != 0 && MadeFrom(batches, groups, latest, settings)
      && Grouped(groups, units, latest, settings)
    ensures multiset(Concat(BatchUuids(batches))) == multiset(Uuids(units))
  {
    GroupUuids(batches, groups, latest, settings);
    UuidsPermuted(Concat(groups), units);
  }

  /* ---- The budget ---- */

  /** A batch of several units keeps to the budget and to the evaluation interval of the settings. */
  lemma {:induction false} WithinBudget(batches: seq<Batch>, groups: seq<seq<Unit>>, units: seq<Unit>, latest: int,
      settings: Settings, k: nat)
    requires settings.scrapeMs != 0 && MadeFrom(batches, groups, latest, settings)
      && Grouped(groups, units, latest, settings)
    requires k < |batches| && |batches[k].uuids| > 1
    ensures Sum(AllSamples(groups[k], latest, settings)) <= AvailableSamples(settings)
    ensures batches[k].evaluationSeconds == Truncate(settings.evaluationSeconds)
  {
    var samples, available := Sum(AllSamples(groups[k], latest, settings)), AvailableSamples(settings);
    assert batches[k] == GroupBatch(groups[k], latest, settings);
    assert ValidChunk(AllSamples(groups[k], latest, settings), available);
    RatioAtMostOne(samples, available);
  }

  lemma {:induction false} RatioAtMostOne(a: int, b: int)
    requires b > 0 && a <= b
    ensures a as real / b as real <= 1.0
  {
  }

  lemma {:induction false} SamplesPositive(units: seq<Unit>, latest: int, settings: Settings)
    requires settings.scrapeMs != 0 && settings.maxSeries >= 0
    ensures NonNegative(AllSamples(units, latest, settings))
  {
    forall i | 0 <= i < |units|
      ensures AllSamples(units, latest, settings)[i] >= 0
    {
      var steps := Quotient(latest - units[i].startedAt, settings.scrapeMs);
      ProductNonNegative(if steps > 1 then steps else 1, settings.maxSeries);
    }
  }

  lemma {:induction false} ProductNonNegative(a: int, b: int)
    requires a >= 0 && b >= 0
    ensures a * b >= 0
  {
  }

  lemma {:induction false} SamplesConcat(groups: seq<seq<Unit>>, latest: int, settings: Settings)
    requires settings.scrapeMs != 0
    ensures Concat(GroupSamples(groups, latest, settings)) == AllSamples(Concat(groups), latest, settings)
  {
    if groups != [] {
      SamplesConcat(groups[1..], latest, settings);
      var all := GroupSamples(groups, latest, settings);
      assert all[1..] == GroupSamples(groups[1..], latest, settings);
      assert AllSamples(groups[0] + Concat(groups[1..]), latest, settings)
        == AllSamples(groups[0], latest, settings) + AllSamples(Concat(groups[1..]), latest, settings);
    }
  }

  lemma {:induction false} GroupsPartition(groups: seq<seq<Unit>>, latest: int, settings: Settings)
    requires settings.scrapeMs != 0
    requires forall k :: 0 <= k < |groups| ==>
      ValidChunk(AllSamples(groups[k], latest, settings), AvailableSamples(settings))
    ensures Partition(GroupSamples(groups, latest, settings), AllSamples(Concat(groups), latest, settings),
      AvailableSamples(settings))
  {
    SamplesConcat(groups, latest, settings);
  }

  /** No cut of the same sequence of units into single units and groups within the budget has fewer batches. */
  lemma {:induction false} FewestBatches(batches: seq<Batch>, groups: seq<seq<Unit>>, units: seq<Unit>, latest: int,
      settings: Settings, other: seq<seq<Unit>>)
    requires settings.scrapeMs != 0 && settings.maxSeries >= 0
    requires MadeFrom(batches, groups, latest, settings) && Grouped(groups, units, latest, settings)
    requires Concat(other) == Concat(groups)
    requires forall k :: 0 <= k < |other| ==>
      ValidChunk(AllSamples(other[k], latest, settings), AvailableSamples(settings))
    ensures |batches| <= |other|
  {
    SamplesPositive(Concat(groups), latest, settings);
    GroupsPartition(groups, latest, settings);
    GroupsPartition(other, latest, settings);
    Optimal(GroupSamples(groups, latest, settings), GroupSamples(other, latest, settings),
            AllSamples(Concat(groups), latest, settings), AvailableSamples(settings));
  }

  /* ---- The window of a batch ---- */

  lemma {:induction false} FirstStartIs(group: seq<Unit>, i: nat)
    requires i < |group|
    ensures FirstStart(group) <= group[i].startedAt
  {
    if i < |group| - 1 {
      FirstStartIs(group[..|group|-1], i);
    }
  }

  lemma {:induction false} LastEndIs(group: seq<Unit>, i: nat)
    requires i < |group|
    ensures group[i].endedAt <= LastEnd(group)
  {
    if i < |group| - 1 {
      LastEndIs(group[..|group|-1], i);
    }
  }

  /** The unit's start and end both lie in the time that the batch asks about. */
  predicate InWindow(u: Unit, b: Batch)
  {
    && b.queryTime - b.duration <= u.startedAt <= b.queryTime
    && b.queryTime - b.duration <= u.endedAt <= b.queryTime
  }

  /**
   * A unit is in its batch's window exactly when it started by the batch's last end and ended after its first start.
   */
  lemma {:induction false} WindowExactly(batches: seq<Batch>, groups: seq<seq<Unit>>, latest: int, settings: Settings,
      k: nat, i: nat)
    requires settings.scrapeMs != 0 && MadeFrom(batches, groups, latest, settings)
    requires k < |batches| && i < |groups[k]|
    ensures InWindow(groups[k][i], batches[k]) <==>
      groups[k][i].startedAt <= LastEnd(groups[k]) && FirstStart(groups[k]) <= groups[k][i].endedAt
  {
    assert batches[k] == GroupBatch(groups[k], latest, settings);
    FirstStartIs(groups[k], i);
    LastEndIs(groups[k], i);
  }

  lemma {:induction false} GroupMember(groups: seq<seq<Unit>>, units: seq<Unit>, latest: int, settings: Settings,
      k: nat, i: nat)
    requires settings.scrapeMs != 0 && Grouped(groups, units, latest, settings)
    requires k < |groups| && i < |groups[k]|
    ensures groups[k][i] in units
  {
    var n := ChunkInConcat(groups, k, i);
    assert Concat(groups)[n] in multiset(Concat(groups));
  }

  /** When every unit has ended after it started, every unit is in its window. */
  lemma {:induction false} WindowCovers(batches: seq<Batch>, groups: seq<seq<Unit>>, units: seq<Unit>, latest: int,
      settings: Settings, k: nat, i: nat)
    requires settings.scrapeMs != 0 && MadeFrom(batches, groups, latest, settings)
      && Grouped(groups, units, latest, settings)
    requires k < |batches| && i < |groups[k]|
    requires forall u :: u in units ==> u.startedAt <= u.endedAt
    ensures InWindow(groups[k][i], batches[k])
  {
    GroupMember(groups, units, latest, settings, k, i);
    WindowExactly(batches, groups, latest, settings, k, i);
    FirstStartIs(groups[k], i);
    LastEndIs(groups[k], i);
  }

  /** A unit that has started, and that either still runs or has ended no earlier. */
  predicate Started(u: Unit)
  {
    u.startedAt > 0 && (u.endedAt == 0 || u.startedAt <= u.endedAt)
  }

  lemma {:induction false} FirstStartPositive(group: seq<Unit>)
    requires group != [] && forall i :: 0 <= i < |group| ==> Started(group[i])
    ensures FirstStart(group) > 0
  {
    if |group| > 1 {
      FirstStartPositive(group[..|group|-1]);
    }
  }

  /** Among units that have started, a unit is in its batch's window exactly when it has ended. */
  lemma {:induction false} WindowExactlyEnded(batches: seq<Batch>, groups: seq<seq<Unit>>, units: seq<Unit>,
      latest: int, settings: Settings, k: nat, i: nat)
    requires settings.scrapeMs != 0 && MadeFrom(batches, groups, latest, settings)
      && Grouped(groups, units, latest, settings)
    requires k < |batches| && i < |groups[k]|
    requires forall u :: u in units ==> Started(u)
    ensures InWindow(groups[k][i], batches[k]) <==> groups[k][i].endedAt != 0
  {
    forall j | 0 <= j < |groups[k]| ensures Started(groups[k][j]) {
      GroupMember(groups, units, latest, settings, k, j);
    }
    WindowExactly(batches, groups, latest, settings, k, i);
    FirstStartIs(groups[k], i);
    LastEndIs(groups[k], i);
    FirstStartPositive(groups[k]);
  }

  ghost predicate AllInWindow(batches: seq<Batch>, groups: seq<seq<Unit>>)
    requires |batches| == |groups|
  {
    forall k, i :: 0 <= k < |groups| && 0 <= i < |groups[k]| ==> InWindow(groups[k][i], batches[k])
  }

  lemma {:induction false} UnitPlace(groups: seq<seq<Unit>>, units: seq<Unit>, latest: int, settings: Settings, u: Unit)
      returns (k: nat, i: nat)
    requires settings.scrapeMs != 0 && Grouped(groups, units, latest, settings) && u in units
    ensures k < |groups| && i < |groups[k]| && groups[k][i] == u
  {
    assert u in multiset(units) && u in multiset(Concat(groups));
    var n :| 0 <= n < |Concat(groups)| && Concat(groups)[n] == u;
    k, i := MemberOfChunk(groups, n);
  }

  /** So every unit is in its window exactly when no unit still runs. */
  lemma {:induction false} AllInWindowExactly(batches: seq<Batch>, groups: seq<seq<Unit>>, units: seq<Unit>,
      latest: int, settings: Settings)
    requires settings.scrapeMs != 0 && MadeFrom(batches, groups, latest, settings)
      && Grouped(groups, units, latest, settings)
    requires forall u :: u in units ==> Started(u)
    ensures AllInWindow(batches, groups) <==> forall u :: u in units ==> u.endedAt != 0
  {
    forall u | u in units && u.endedAt == 0 ensures !AllInWindow(batches, groups) {
      var k, i := UnitPlace(groups, units, latest, settings, u);
      WindowExactlyEnded(batches, groups, units, latest, settings, k, i);
    }
    forall k, i | 0 <= k < |groups| && 0 <= i < |groups[k]| && groups[k][i].endedAt != 0
      ensures InWindow(groups[k][i], batches[k])
    {
      WindowExactlyEnded(batches, groups, units, latest, settings, k, i);
    }
    forall k, i | 0 <= k < |groups| && 0 <= i < |groups[k]| ensures groups[k][i] in units {
      GroupMember(groups, units, latest, settings, k, i);
    }
  }

  lemma {:induction false} OneGroup(groups: seq<seq<Unit>>, u: Unit)
    requires multiset(Concat(groups)) == multiset{u} && forall k :: 0 <= k < |groups| ==> groups[k] != []
    ensures groups == [[u]]
  {
    var all := Concat(groups);
    assert |all| == |multiset(all)| == 1;
    assert all[0] in multiset{u};
    AtLeastAsMany(groups);
    assert all == groups[0] + Concat(groups[1..]);
    assert groups[1..] == [];
    assert all == groups[0];
    assert groups[0] == [u];
  }

  /**
   * A unit that still runs has no end yet: its end is zero, before its start, and its own batch asks about no time at
   * all.
   */
  lemma {:induction false} RunningUnitOutside(batches: seq<Batch>, groups: seq<seq<Unit>>, u: Unit, latest: int,
      settings: Settings)
    requires settings.scrapeMs != 0 && MadeFrom(batches, groups, latest, settings)
      && Grouped(groups, [u], latest, settings)
    requires u.endedAt == 0 < u.startedAt
    ensures |batches| == 1 && !InWindow(u, batches[0]) && batches[0].duration < 0
  {
    OneGroup(groups, u);
    WindowExactly(batches, groups, latest, settings, 0, 0);
    assert batches[0] == GroupBatch(groups[0], latest, settings);
  }

  /** Batches follow each other back in time: the window of one starts no earlier than the window of the next. */
  lemma {:induction false} WindowsGoBack(batches: seq<Batch>, groups: seq<seq<Unit>>, units: seq<Unit>, latest: int,
      settings: Settings, k: nat)
    requires settings.scrapeMs != 0 && MadeFrom(batches, groups, latest, settings)
      && Grouped(groups, units, latest, settings)
    requires k + 1 < |batches|
    ensures batches[k].queryTime - batches[k].duration >= batches[k+1].queryTime - batches[k+1].duration
  {
    assert batches[k] == GroupBatch(groups[k], latest, settings);
    assert batches[k+1] == GroupBatch(groups[k+1], latest, settings);
    PairOrdered(groups, k);
    SliceOrdered(groups[k] + groups[k+1], |groups[k]|);
  }

  lemma {:induction false} FirstStartSorted(group: seq<Unit>)
    requires group != [] && ByWalltime(group)
    ensures FirstStart(group) == group[|group|-1].startedAt
  {
    if |group| > 1 {
      FirstStartSorted(group[..|group|-1]);
    }
  }

  lemma {:induction false} SliceOrdered(all: seq<Unit>, n: nat)
    requires 0 < n < |all| && ByWalltime(all)
    ensures FirstStart(all[..n]) >= FirstStart(all[n..])
    ensures all[..n] != [] && all[n..] != []
  {
    FirstStartSorted(all[..n]);
    FirstStartSorted(all[n..]);
  }

  lemma {:induction false} PairOrdered(groups: seq<seq<Unit>>, k: nat)
    requires k + 1 < |groups| && ByWalltime(Concat(groups))
    ensures ByWalltime(groups[k] + groups[k+1])
    ensures (groups[k] + groups[k+1])[..|groups[k]|] == groups[k]
      && (groups[k] + groups[k+1])[|groups[k]|..] == groups[k+1]
    decreases k
  {
    var all, rest := Concat(groups), Concat(groups[1..]);
    assert forall i :: 0 <= i < |rest| ==> rest[i] == all[|groups[0]| + i];
    if k > 0 {
      PairOrdered(groups[1..], k - 1);
    } else {
      var pair := groups[0] + groups[1];
      assert rest == groups[1] + Concat(groups[1..][1..]);
      assert forall i :: 0 <= i < |pair| ==> pair[i] == all[i];
    }
  }
}
