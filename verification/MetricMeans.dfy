/** Incremental averages against weighted means (pkg/sqlite3/sqlite3.go). */
module MetricMeans {
  import opened MetricMaps
  import opened Options
  import opened Seqs

  /** What a row has for one metric name. */
  datatype Cell = Cell(value: Option<real>, weight: real)

  function Cells(rows: seq<Row>, k: string): seq<Cell>
  {
    seq(|rows|, i requires 0 <= i < |rows| => Cell(Look(rows[i].metrics, k), rows[i].weight))
  }

  function TotalWeight(cells: seq<Cell>): real
  {
    if cells == [] then 0.0 else TotalWeight(cells[..|cells|-1]) + cells[|cells|-1].weight
  }

  /** The weight of the rows that have the name, and their weighted sum. */
  function PresentWeight(cells: seq<Cell>): real
  {
    if cells == [] then 0.0
    else PresentWeight(cells[..|cells|-1]) + WeightOf(cells[|cells|-1].value, cells[|cells|-1].weight)
  }

  function WeightedSum(cells: seq<Cell>): real
  {
    if cells == [] then 0.0
    else WeightedSum(cells[..|cells|-1]) + Weighted(cells[|cells|-1].value, cells[|cells|-1].weight)
  }

  /** The average column at one name, row after row; the existing weight counts every earlier row. */
  function Folded(cells: seq<Cell>): Option<real>
  {
    if cells == [] then None
    else
      var p, c := Folded(cells[..|cells|-1]), cells[|cells|-1];
      if p.None? then c.value
      else if c.value.None? then p
      else Some(AvgCell(p, c.value, TotalWeight(cells[..|cells|-1]), c.weight))
  }

  predicate Positive(cells: seq<Cell>)
  {
    forall i :: 0 <= i < |cells| ==> cells[i].weight > 0.0
  }

  lemma {:induction false} TotalPositive(cells: seq<Cell>)
    requires Positive(cells)
    ensures TotalWeight(cells) >= 0.0 && (cells != [] ==> TotalWeight(cells) > 0.0)
  {
    if cells != [] {
      TotalPositive(cells[..|cells|-1]);
    }
  }

  /** The column really is the fold. */
  lemma {:induction false} RecordFolds(rows: seq<Row>, k: string)
    requires rows != [] && forall i :: 0 <= i < |rows| ==> rows[i].weight > 0.0
    ensures Look(Record(rows).avg, k) == Folded(Cells(rows, k))
    ensures Record(rows).weight == TotalWeight(Cells(rows, k))
  {
    var n, cells := |rows| - 1, Cells(rows, k);
    assert cells[..n] == Cells(rows[..n], k);
    TotalPositive(cells[..n]);
    if n == 0 {
      assert cells[..0] == [];
    } else {
      RecordFolds(rows[..n], k);
      var u, r := Record(rows[..n]), rows[n];
      AvgCellIs(Look(u.avg, k), Look(r.metrics, k), u.weight, r.weight);
    }
  }

  /** The fold is the weighted mean of the rows that have the name. */
  predicate IsMean(cells: seq<Cell>)
  {
    MeanOf(Folded(cells), PresentWeight(cells), WeightedSum(cells))
  }

  predicate MeanOf(avg: Option<real>, weight: real, sum: real)
  {
    avg.Some? && avg.value * weight == sum
  }

  /** Before every row that has the name, either all rows have it or none has. */
  predicate GapFree(present: seq<bool>)
  {
    forall l :: 0 <= l < |present| && present[l] ==>
      (forall e :: 0 <= e < l ==> present[e]) || (forall e :: 0 <= e < l ==> !present[e])
  }

  predicate Matches(cells: seq<Cell>, present: seq<bool>)
  {
    |cells| == |present| && forall i :: 0 <= i < |cells| ==> (cells[i].value.Some? <==> present[i])
  }

  lemma {:induction false} QuotientTimes(s: real, w: real)
    requires w > 0.0
    ensures s / w * w == s
  {
  }

  lemma {:induction false} AbsentFolds(cells: seq<Cell>)
    requires forall i :: 0 <= i < |cells| ==> cells[i].value.None?
    ensures Folded(cells) == None && PresentWeight(cells) == 0.0 && WeightedSum(cells) == 0.0
  {
    if cells != [] {
      AbsentFolds(cells[..|cells|-1]);
    }
  }

  lemma {:induction false} AllPresentWeight(cells: seq<Cell>)
    requires forall i :: 0 <= i < |cells| ==> cells[i].value.Some?
    ensures PresentWeight(cells) == TotalWeight(cells)
  {
    if cells != [] {
      AllPresentWeight(cells[..|cells|-1]);
    }
  }

  lemma {:induction false} GapFreeMean(cells: seq<Cell>, present: seq<bool>)
    requires Positive(cells) && Matches(cells, present) && GapFree(present)
    requires exists i :: 0 <= i < |cells| && present[i]
    ensures IsMean(cells)
  {
    var n := |cells| - 1;
    var front := cells[..n];
    assert GapFree(present[..n]);
    if !present[n] {
      GapFreeMean(front, present[..n]);
    } else if forall e :: 0 <= e < n ==> !present[e] {
      AbsentFolds(front);
    } else {
      assert forall e :: 0 <= e < n ==> present[e];
      assert present[..n][0];
      GapFreeMean(front, present[..n]);
      AllPresentStep(cells);
    }
  }

  /** One more row when all have the name. */
  lemma {:induction false} AllPresentStep(cells: seq<Cell>)
    requires Positive(cells) && |cells| > 1 && forall i :: 0 <= i < |cells| ==> cells[i].value.Some?
    requires IsMean(cells[..|cells|-1])
    ensures IsMean(cells)
  {
    var n := |cells| - 1;
    var front, c := cells[..n], cells[n];
    AllPresentWeight(front);
    TotalPositive(front);
    MeanStep(Folded(front).value, c.value.value, TotalWeight(front), c.weight);
    assert PresentWeight(cells) == TotalWeight(front) + c.weight;
    assert WeightedSum(cells) == WeightedSum(front) + c.value.value * c.weight;
  }

  lemma {:induction false} MeanStep(a: real, v: real, wa: real, w: real)
    requires wa > 0.0 && w > 0.0
    ensures AvgCell(Some(a), Some(v), wa, w) * (wa + w) == a * wa + v * w
  {
    AvgCellIs(Some(a), Some(v), wa, w);
    QuotientTimes(a * wa + v * w, wa + w);
  }

  /** Values that tell a gap: zero everywhere but in row l. */
  function Telling(present: seq<bool>, weights: seq<real>, l: nat): (cells: seq<Cell>)
    requires |present| == |weights|
    ensures |cells| == |present|
  {
    seq(|present|, i requires 0 <= i < |present| =>
      Cell(if present[i] then Some(if i == l then 1.0 else 0.0) else None, weights[i]))
  }

  lemma {:induction false} ZeroFolds(cells: seq<Cell>)
    requires Positive(cells) && forall i :: 0 <= i < |cells| && cells[i].value.Some? ==> cells[i].value.value == 0.0
    ensures WeightedSum(cells) == 0.0
    ensures (exists i :: 0 <= i < |cells| && cells[i].value.Some?) ==> Folded(cells) == Some(0.0)
    ensures Folded(cells).Some? ==> Folded(cells).value == 0.0
  {
    if cells != [] {
      var n := |cells| - 1;
      ZeroFolds(cells[..n]);
      TotalPositive(cells[..n]);
      if n > 0 && Folded(cells[..n]).Some? && cells[n].value.Some? {
        AvgCellIs(Some(0.0), Some(0.0), TotalWeight(cells[..n]), cells[n].weight);
      }
      forall i | 0 <= i < |cells| && cells[i].value.Some?
        ensures Folded(cells) == Some(0.0)
      {
        if i < n {
          assert cells[..n][i].value.Some?;
        }
      }
    }
  }

  lemma {:induction false} AbsentCosts(cells: seq<Cell>)
    requires Positive(cells)
    ensures PresentWeight(cells) <= TotalWeight(cells)
    ensures (exists i :: 0 <= i < |cells| && cells[i].value.None?) ==> PresentWeight(cells) < TotalWeight(cells)
  {
    if cells != [] {
      var n := |cells| - 1;
      AbsentCosts(cells[..n]);
      forall i | 0 <= i < |cells| && cells[i].value.None?
        ensures PresentWeight(cells) < TotalWeight(cells)
      {
        if i < n {
          assert cells[..n][i].value.None?;
        }
      }
    }
  }

  /** Rows without the name after row l change nothing. */
  lemma {:induction false} TrailingAbsent(cells: seq<Cell>, m: nat)
    requires m <= |cells| && forall i :: m <= i < |cells| ==> cells[i].value.None?
    ensures Folded(cells) == Folded(cells[..m]) && PresentWeight(cells) == PresentWeight(cells[..m])
    ensures WeightedSum(cells) == WeightedSum(cells[..m])
  {
    if m == |cells| {
      PrefixAll(cells);
    } else {
      TrailingAbsent(cells[..|cells|-1], m);
      assert cells[..|cells|-1][..m] == cells[..m];
    }
  }

  lemma {:induction false} LastPresent(present: seq<bool>) returns (l: nat)
    requires exists i :: 0 <= i < |present| && present[i]
    ensures l < |present| && present[l] && forall i :: l < i < |present| ==> !present[i]
  {
    var n := |present| - 1;
    if present[n] {
      l := n;
    } else {
      l := LastPresent(present[..n]);
      assert present[..n][l];
      forall i | l < i < |present| ensures !present[i] {
        if i < n {
          assert !present[..n][i];
        }
      }
    }
  }

  /** The fold of the telling values up to row l is too small. */
  lemma {:induction false} GapTold(front: seq<Cell>, w: real)
    requires Positive(front) && w > 0.0 && Folded(front) == Some(0.0) && WeightedSum(front) == 0.0
    requires PresentWeight(front) < TotalWeight(front)
    ensures !IsMean(front + [Cell(Some(1.0), w)])
  {
    var cells := front + [Cell(Some(1.0), w)];
    assert cells[..|front|] == front;
    TotalPositive(front);
    var W, P := TotalWeight(front), PresentWeight(front);
    var a := AvgCell(Some(0.0), Some(1.0), W, w);
    MeanStep(0.0, 1.0, W, w);
    assert a * (W + w) == w;
    if a * (P + w) == w {
      assert a * (W + w) - a * (P + w) == a * (W - P);
      NoZeroProduct(a, W - P);
    }
    assert Folded(cells) == Some(a) && PresentWeight(cells) == P + w && WeightedSum(cells) == w;
  }

  lemma {:induction false} NoZeroProduct(a: real, d: real)
    requires d > 0.0
    ensures a * d == 0.0 ==> a == 0.0
  {
  }

  lemma {:induction false} TellingFront(present: seq<bool>, weights: seq<real>, l: nat, e: nat, f: nat)
    requires |present| == |weights| && (forall i :: 0 <= i < |weights| ==> weights[i] > 0.0)
    requires e < l && f < l < |present| && !present[e] && present[f]
    ensures var front := Telling(present, weights, l)[..l];
      && Positive(front) && Folded(front) == Some(0.0) && WeightedSum(front) == 0.0
      && PresentWeight(front) < TotalWeight(front)
  {
    var front := Telling(present, weights, l)[..l];
    assert front[e].value.None? && front[f].value.Some?;
    ZeroFolds(front);
    AbsentCosts(front);
  }

  lemma {:induction false} GapMissesMean(present: seq<bool>, weights: seq<real>) returns (cells: seq<Cell>)
    requires |present| == |weights| && (forall i :: 0 <= i < |weights| ==> weights[i] > 0.0)
    requires !GapFree(present)
    ensures Matches(cells, present) && (forall i :: 0 <= i < |cells| ==> cells[i].weight == weights[i])
      && !IsMean(cells)
  {
    var l, e, f := GapAtLast(present);
    cells := Telling(present, weights, l);
    TellingTold(present, weights, l, e, f);
    TrailingMean(cells, l + 1);
  }

  lemma {:induction false} TrailingMean(cells: seq<Cell>, m: nat)
    requires m <= |cells| && forall i :: m <= i < |cells| ==> cells[i].value.None?
    ensures IsMean(cells) <==> IsMean(cells[..m])
  {
    TrailingAbsent(cells, m);
  }

  lemma {:induction false} TellingTold(present: seq<bool>, weights: seq<real>, l: nat, e: nat, f: nat)
    requires |present| == |weights| && (forall i :: 0 <= i < |weights| ==> weights[i] > 0.0)
    requires e < l && f < l < |present| && !present[e] && present[f] && present[l]
    ensures !IsMean(Telling(present, weights, l)[..l+1])
  {
    var cells := Telling(present, weights, l);
    TellingFront(present, weights, l, e, f);
    GapTold(cells[..l], weights[l]);
    assert cells[..l+1] == cells[..l] + [Cell(Some(1.0), weights[l])];
  }

  /** A gap before some row with the name is a gap before the last one. */
  lemma {:induction false} GapAtLast(present: seq<bool>) returns (l: nat, e: nat, f: nat)
    requires !GapFree(present)
    ensures e < l && f < l < |present| && present[l] && !present[e] && present[f]
    ensures forall i :: l < i < |present| ==> !present[i]
  {
    var x :| 0 <= x < |present| && present[x] && !(forall e :: 0 <= e < x ==> present[e])
      && !(forall e :: 0 <= e < x ==> !present[e]);
    e :| 0 <= e < x && !present[e];
    f :| 0 <= f < x && present[f];
    l := LastPresent(present);
  }

  /**
   * The average column is the weighted mean of the rows that have the name, whatever the values, exactly when at
   * every row that has it either all earlier rows have it or none has.
   */
  lemma {:induction false} MeanExactlyWhenGapFree(present: seq<bool>, weights: seq<real>)
    requires |present| == |weights| && (forall i :: 0 <= i < |weights| ==> weights[i] > 0.0)
    requires exists i :: 0 <= i < |present| && present[i]
    ensures GapFree(present) <==>
      forall cells: seq<Cell> ::
        Matches(cells, present) && (forall i :: 0 <= i < |cells| ==> cells[i].weight == weights[i]) ==> IsMean(cells)
  {
    if GapFree(present) {
      forall cells: seq<Cell>
        | Matches(cells, present) && (forall i :: 0 <= i < |cells| ==> cells[i].weight == weights[i])
        ensures IsMean(cells)
      {
        GapFreeMean(cells, present);
      }
    } else {
      var cells := GapMissesMean(present, weights);
    }
  }

  lemma {:induction false} AllPresentMean(cells: seq<Cell>)
    requires cells != [] && Positive(cells) && forall i :: 0 <= i < |cells| ==> cells[i].value.Some?
    ensures Folded(cells) == Some(Quotient(WeightedSum(cells), PresentWeight(cells)))
  {
    var present := seq(|cells|, i => true);
    assert present[0];
    GapFreeMean(cells, present);
    AllPresentWeight(cells);
    TotalPositive(cells);
    CancelMean(Folded(cells).value, PresentWeight(cells), WeightedSum(cells));
  }

  lemma {:induction false} CancelMean(a: real, w: real, s: real)
    requires w > 0.0 && a * w == s
    ensures Quotient(s, w) == a
  {
  }
}
