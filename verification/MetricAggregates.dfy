/** The aggregate over rows of usage (pkg/sqlite3/sqlite3.go). */
module MetricAggregates {
  import opened MetricMaps
  import opened MetricMeans
  import opened Options

  /* ---- The aggregate ---- */

  /** The map that the aggregator decodes each row into: names of earlier rows stay in it. */
  function Current(rows: seq<Row>): MetricMap
  {
    if rows == [] then map[] else if Skipped(rows[|rows|-1]) then Current(rows[..|rows|-1])
    else Current(rows[..|rows|-1]) + rows[|rows|-1].metrics
  }

  /** Rows with an empty map or no weight are ignored. */
  predicate Skipped(r: Row)
  {
    r.metrics == map[] || r.weight == 0.0
  }

  /** The cells the aggregator adds up at one name: where a row lacks it, the last value seen. */
  function Carried(rows: seq<Row>, k: string): seq<Cell>
  {
    if rows == [] then []
    else if Skipped(rows[|rows|-1]) then Carried(rows[..|rows|-1], k)
    else Carried(rows[..|rows|-1], k) + [Cell(Look(Current(rows), k), rows[|rows|-1].weight)]
  }

  ghost predicate Aggregates(sums: MetricMap, weights: MetricMap, rows: seq<Row>)
  {
    && sums.Keys == weights.Keys == Current(rows).Keys
    && (forall k :: At(sums, k) == WeightedSum(Carried(rows, k)))
    && (forall k :: At(weights, k) == PresentWeight(Carried(rows, k)))
  }

  lemma {:induction false} CarriedNext(rows: seq<Row>, k: string)
    requires rows != [] && !Skipped(rows[|rows|-1])
    ensures var n := |rows| - 1;
      && WeightedSum(Carried(rows, k)) == WeightedSum(Carried(rows[..n], k))
        + Weighted(Look(Current(rows), k), rows[n].weight)
      && PresentWeight(Carried(rows, k))
        == PresentWeight(Carried(rows[..n], k)) + WeightOf(Look(Current(rows), k), rows[n].weight)
  {
    var n := |rows| - 1;
    var p := Carried(rows[..n], k);
    assert (p + [Cell(Look(Current(rows), k), rows[n].weight)])[..|p|] == p;
  }

  lemma {:induction false} AggregateStep(s0: MetricMap, w0: MetricMap, s: MetricMap, w: MetricMap, rows: seq<Row>)
    requires rows != [] && !Skipped(rows[|rows|-1]) && Aggregates(s0, w0, rows[..|rows|-1])
    requires s.Keys == w.Keys == s0.Keys + Current(rows).Keys
    requires forall k :: At(s, k) == At(s0, k) + Weighted(Look(Current(rows), k), rows[|rows|-1].weight)
    requires forall k :: At(w, k) == At(w0, k) + WeightOf(Look(Current(rows), k), rows[|rows|-1].weight)
    ensures Aggregates(s, w, rows)
  {
    forall k
      ensures At(s, k) == WeightedSum(Carried(rows, k))
      ensures At(w, k) == PresentWeight(Carried(rows, k))
    {
      CarriedNext(rows, k);
    }
  }

  /** Something was added to the value of each of these names, where a name without a value starts at zero. */
  ghost predicate Added(before: MetricMap, after: MetricMap, more: MetricMap)
  {
    && after.Keys == before.Keys + more.Keys
    && (forall k :: k in more ==> after[k] == (if k in before then before[k] else 0.0) + more[k])
    && (forall k :: k in before && k !in more ==> after[k] == before[k])
  }

  lemma {:induction false} AddedIs(before: MetricMap, after: MetricMap, more: MetricMap)
    requires after.Keys == before.Keys + more.Keys && forall k :: At(after, k) == At(before, k) + At(more, k)
    ensures Added(before, after, more)
  {
    forall k | k in after
      ensures after[k] == (if k in before then before[k] else 0.0) + (if k in more then more[k] else 0.0)
    {
      assert At(after, k) == after[k];
    }
  }

  function Products(m: MetricMap, weight: real): MetricMap
  {
    map k | k in m :: m[k] * weight
  }

  lemma {:induction false} ProductAt(m: MetricMap, weight: real, k: string)
    ensures At(Products(m, weight), k) == Weighted(Look(m, k), weight)
  {
  }

  lemma {:induction false} AllAdded(s0: MetricMap, s: MetricMap, w0: MetricMap, w: MetricMap, m: MetricMap,
      weight: real)
    requires s.Keys == w.Keys == s0.Keys + m.Keys && s0.Keys == w0.Keys
    requires forall k :: At(s, k) == At(s0, k) + Weighted(Look(m, k), weight)
    requires forall k :: At(w, k) == At(w0, k) + WeightOf(Look(m, k), weight)
    ensures Added(s0, s, Products(m, weight)) && Added(w0, w, map k | k in m :: weight)
  {
    forall k ensures At(s, k) == At(s0, k) + At(Products(m, weight), k) {
      ProductAt(m, weight, k);
    }
    AddedIs(s0, s, Products(m, weight));
    var heavier := map k | k in m :: weight;
    assert heavier.Keys == m.Keys;
    AddedIs(w0, w, heavier);
  }

  class AvgMetricMapAgg {
    var avgMetricMap: MetricMap
    var currentMetricMap: MetricMap
    var totalWeights: MetricMap
    ghost var rows: seq<Row>

    ghost predicate Valid()
      reads this
    {
      currentMetricMap == Current(rows) && Aggregates(avgMetricMap, totalWeights, rows)
    }

    constructor ()
      ensures Valid() && rows == []
    {
      avgMetricMap, currentMetricMap, totalWeights, rows := map[], map[], map[], [];
    }

    method Step(m: MetricMap, w: real)
      requires Valid()
      modifies this
      ensures Valid() && rows == old(rows) + [Row(m, w)]
      ensures m == map[] || w == 0.0 ==>
        && avgMetricMap == old(avgMetricMap) && totalWeights == old(totalWeights)
        && currentMetricMap == old(currentMetricMap)
      ensures m != map[] && w != 0.0 ==>
        && currentMetricMap == old(currentMetricMap) + m
        && Added(old(avgMetricMap), avgMetricMap, Products(currentMetricMap, w))
        && Added(old(totalWeights), totalWeights, map k | k in currentMetricMap :: w)
    {
      rows := rows + [Row(m, w)];
      assert rows[..|rows|-1] == old(rows);
      if m == map[] || w == 0.0 {
        return;
      }
      currentMetricMap := currentMetricMap + m;
      ghost var s0, w0 := avgMetricMap, totalWeights;
      avgMetricMap, totalWeights := Accumulate(currentMetricMap, w, avgMetricMap, totalWeights);
      AllAdded(s0, avgMetricMap, w0, totalWeights, currentMetricMap, w);
      AggregateStep(s0, w0, avgMetricMap, totalWeights, rows);
    }

    /** Every name gets its carried sum divided by its carried weight. */
    method Done() returns (avg: MetricMap)
      requires Valid()
      modifies this
      ensures avg == avgMetricMap && avg.Keys == Current(rows).Keys && rows == old(rows)
      ensures avg.Keys == old(avgMetricMap).Keys == old(totalWeights).Keys
      ensures forall k :: k in avg ==> avg[k] == var sum, weight := old(avgMetricMap)[k], old(totalWeights)[k];
        if weight > 0.0 then sum / weight else sum
      ensures forall k :: k in avg ==>
        avg[k] == Quotient(WeightedSum(Carried(rows, k)), PresentWeight(Carried(rows, k)))
    {
      ghost var sums := avgMetricMap;
      avgMetricMap := Divide(avgMetricMap, totalWeights);
      avg := avgMetricMap;
      assert forall k :: k in avg ==> sums[k] == At(sums, k) && totalWeights[k] == At(totalWeights, k);
    }
  }

  /** Rows that all have the name, or are skipped, are added up as they are. */
  lemma {:induction false} CarriedAsIs(rows: seq<Row>, k: string)
    requires forall i :: 0 <= i < |rows| ==> Skipped(rows[i]) || k in rows[i].metrics
    ensures Carried(rows, k) == Cells(Counted(rows), k)
  {
    if rows != [] {
      var n := |rows| - 1;
      CarriedAsIs(rows[..n], k);
      if !Skipped(rows[n]) {
        var front := Counted(rows[..n]);
        assert Cells(front + [rows[n]], k) == Cells(front, k) + [Cell(Look(rows[n].metrics, k), rows[n].weight)];
      }
    }
  }

  function Counted(rows: seq<Row>): seq<Row>
  {
    if rows == [] then []
    else Counted(rows[..|rows|-1]) + if Skipped(rows[|rows|-1]) then [] else [rows[|rows|-1]]
  }

  /** Then the aggregate and the incremental column agree: both are the weighted mean. */
  lemma {:induction false} AggregateAgrees(rows: seq<Row>, k: string)
    requires rows != [] && forall i :: 0 <= i < |rows| ==> rows[i].weight > 0.0 && k in rows[i].metrics
    ensures k in Record(rows).avg
    ensures Record(rows).avg[k] == Quotient(WeightedSum(Carried(rows, k)), PresentWeight(Carried(rows, k)))
  {
    var cells := Cells(rows, k);
    CarriedIsCells(rows, k);
    RecordFolds(rows, k);
    assert forall i :: 0 <= i < |cells| ==> cells[i] == Cell(Some(rows[i].metrics[k]), rows[i].weight);
    AllPresentMean(cells);
    assert Look(Record(rows).avg, k).Some?;
  }

  lemma {:induction false} CarriedIsCells(rows: seq<Row>, k: string)
    requires forall i :: 0 <= i < |rows| ==> rows[i].weight > 0.0 && k in rows[i].metrics
    ensures Carried(rows, k) == Cells(rows, k)
  {
    CarriedAsIs(rows, k);
    NoneSkipped(rows, k);
  }

  lemma {:induction false} NoneSkipped(rows: seq<Row>, k: string)
    requires forall i :: 0 <= i < |rows| ==> rows[i].weight > 0.0 && k in rows[i].metrics
    ensures Counted(rows) == rows
  {
    if rows != [] {
      var n := |rows| - 1;
      NoneSkipped(rows[..n], k);
      assert !Skipped(rows[n]) by {
        assert k in rows[n].metrics;
      }
      assert rows == rows[..n] + [rows[n]];
    }
  }
}
