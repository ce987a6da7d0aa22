/** When the aggregate is a weighted mean (pkg/sqlite3/sqlite3.go). */
module AggregateMeans {
  import opened MetricAggregates
  import opened MetricMaps
  import opened MetricMeans
  import opened Options

  /* ---- What the aggregate adds up, from the cells of the counted rows ---- */

  /** The last value seen. */
  function Latest(cells: seq<Cell>): Option<real>
  {
    if cells == [] then None
    else if cells[|cells|-1].value.Some? then cells[|cells|-1].value
    else Latest(cells[..|cells|-1])
  }

  /** Every row with the last value seen. */
  function Carry(cells: seq<Cell>): (r: seq<Cell>)
    ensures |r| == |cells|
  {
    if cells == [] then [] else Carry(cells[..|cells|-1]) + [Cell(Latest(cells), cells[|cells|-1].weight)]
  }

  /** The aggregator carries values from counted row to counted row. */
  lemma {:induction false} CarriedIsCarry(rows: seq<Row>, k: string)
    ensures Look(Current(rows), k) == Latest(Cells(Counted(rows), k))
    ensures Carried(rows, k) == Carry(Cells(Counted(rows), k))
  {
    if rows != [] {
      var n := |rows| - 1;
      CarriedIsCarry(rows[..n], k);
      if !Skipped(rows[n]) {
        var front, cells := Counted(rows[..n]), Cells(Counted(rows), k);
        assert cells == Cells(front, k) + [Cell(Look(rows[n].metrics, k), rows[n].weight)];
        assert cells[..|cells|-1] == Cells(front, k);
      } else {
        assert Counted(rows) == Counted(rows[..n]);
      }
    }
  }

  /** The weight of the rows from row i up to the next one that has the name. */
  function GapAfter(cells: seq<Cell>, i: nat): real
    decreases |cells| - i
  {
    if i >= |cells| || cells[i].value.Some? then 0.0 else cells[i].weight + GapAfter(cells, i + 1)
  }

  lemma {:induction false} GapSnoc(cells: seq<Cell>, i: nat)
    requires i < |cells| && forall j :: i <= j < |cells| ==> cells[j].value.None?
    ensures GapAfter(cells, i) == GapAfter(cells[..|cells|-1], i) + cells[|cells|-1].weight
    decreases |cells| - i
  {
    if i < |cells| - 1 {
      GapSnoc(cells, i + 1);
    }
  }

  lemma {:induction false} GapPrefix(cells: seq<Cell>, p: nat, i: nat)
    requires i <= p < |cells| && cells[p].value.Some?
    ensures GapAfter(cells, i) == GapAfter(cells[..p], i)
    decreases p - i
  {
    if i < p {
      GapPrefix(cells, p, i + 1);
    }
  }

  lemma {:induction false} CarryNext(cells: seq<Cell>)
    requires cells != []
    ensures var front, c := cells[..|cells|-1], Cell(Latest(cells), cells[|cells|-1].weight);
      && WeightedSum(Carry(cells)) == WeightedSum(Carry(front)) + Weighted(c.value, c.weight)
      && PresentWeight(Carry(cells)) == PresentWeight(Carry(front)) + WeightOf(c.value, c.weight)
  {
    var front := Carry(cells[..|cells|-1]);
    assert Carry(cells)[..|front|] == front;
  }

  lemma {:induction false} Spread(v: real, w: real, g: real, d: real)
    ensures v * (w + g) + v * d == v * (w + (g + d))
  {
  }

  /** The sums over the carried cells and over the plain ones. */
  datatype Totals = Totals(carriedSum: real, carriedWeight: real, sum: real, weight: real)

  function TotalsOf(cells: seq<Cell>): Totals
  {
    Totals(WeightedSum(Carry(cells)), PresentWeight(Carry(cells)), WeightedSum(cells), PresentWeight(cells))
  }

  /** What the aggregate makes of the rows is their weighted mean. */
  predicate Agrees(x: Totals)
  {
    Quotient(x.carriedSum, x.carriedWeight) == Quotient(x.sum, x.weight)
  }

  predicate AggregateIsMean(cells: seq<Cell>)
  {
    Agrees(TotalsOf(cells))
  }

  /** What one group of rows adds: a row with the name and the rows after it. */
  predicate Adds(before: Totals, after: Totals, v: real, w: real, g: real)
  {
    && after.carriedSum == before.carriedSum + v * (w + g)
    && after.carriedWeight == before.carriedWeight + (w + g)
    && after.sum == before.sum + v * w
    && after.weight == before.weight + w
  }

  ghost predicate GroupAdds(cells: seq<Cell>, p: nat, v: real, w: real, g: real)
    requires p < |cells|
  {
    Adds(TotalsOf(cells[..p]), TotalsOf(cells), v, w, g)
  }

  lemma {:induction false} GroupOfOne(cells: seq<Cell>)
    requires cells != [] && cells[|cells|-1].value.Some?
    ensures var c := cells[|cells|-1]; GroupAdds(cells, |cells| - 1, c.value.value, c.weight, 0.0)
  {
    CarryNext(cells);
    Spread(cells[|cells|-1].value.value, cells[|cells|-1].weight, 0.0, 0.0);
  }

  lemma {:induction false} GroupGrows(cells: seq<Cell>, p: nat, v: real, w: real, g: real)
    requires p < |cells| - 1 && cells[|cells|-1].value.None? && Latest(cells) == Some(v)
    requires GroupAdds(cells[..|cells|-1], p, v, w, g)
    ensures GroupAdds(cells, p, v, w, g + cells[|cells|-1].weight)
  {
    var n := |cells| - 1;
    assert cells[..n][..p] == cells[..p];
    CarryNext(cells);
    Spread(v, w, g, cells[n].weight);
  }

  /** The last row with the name counts with the rows after it. */
  lemma {:induction false} LastGroup(cells: seq<Cell>, p: nat)
    requires p < |cells| && cells[p].value.Some? && forall j :: p < j < |cells| ==> cells[j].value.None?
    ensures Latest(cells) == cells[p].value
    ensures GroupAdds(cells, p, cells[p].value.value, cells[p].weight, GapAfter(cells, p + 1))
  {
    var n := |cells| - 1;
    if p < n {
      LastGroup(cells[..n], p);
      GapSnoc(cells, p + 1);
      GroupGrows(cells, p, cells[p].value.value, cells[p].weight, GapAfter(cells[..n], p + 1));
    } else {
      GroupOfOne(cells);
    }
  }

  /** Without a value there is nothing to carry. */
  lemma {:induction false} NothingCarried(cells: seq<Cell>)
    requires forall i :: 0 <= i < |cells| ==> cells[i].value.None?
    ensures Latest(cells).None? && WeightedSum(Carry(cells)) == 0.0 && PresentWeight(Carry(cells)) == 0.0
    ensures WeightedSum(cells) == 0.0 && PresentWeight(cells) == 0.0
  {
    if cells != [] {
      CarryNext(cells);
      NothingCarried(cells[..|cells|-1]);
    }
  }

  lemma {:induction false} LastWithName(cells: seq<Cell>) returns (p: int)
    ensures -1 <= p < |cells| && (p >= 0 ==> cells[p].value.Some?)
    ensures forall j :: p < j < |cells| ==> cells[j].value.None?
  {
    p := |cells| - 1;
    if cells != [] && cells[p].value.None? {
      p := LastWithName(cells[..p]);
      forall j | p < j < |cells| ensures cells[j].value.None? {
        assert j < |cells| - 1 ==> cells[j] == cells[..|cells|-1][j];
      }
    }
  }

  /* ---- Sufficient: all gaps in one ratio to the weights before them ---- */

  ghost predicate InRatio(cells: seq<Cell>, r: real)
  {
    forall p :: 0 <= p < |cells| && cells[p].value.Some? ==> GapAfter(cells, p + 1) == r * cells[p].weight
  }

  lemma {:induction false} ScaleOne(a: real, b: real, v: real, w: real, g: real, r: real)
    requires a == (1.0 + r) * b && g == r * w
    ensures a + v * (w + g) == (1.0 + r) * (b + v * w)
  {
    assert w + g == (1.0 + r) * w;
    assert v * ((1.0 + r) * w) == (1.0 + r) * (v * w);
  }

  /** Both sums of the carried cells are the same multiple of the plain ones. */
  predicate Scaled(x: Totals, r: real)
  {
    x.carriedSum == (1.0 + r) * x.sum && x.carriedWeight == (1.0 + r) * x.weight
  }

  lemma {:induction false} ScaleGroup(before: Totals, after: Totals, v: real, w: real, g: real, r: real)
    requires Adds(before, after, v, w, g) && g == r * w && Scaled(before, r)
    ensures Scaled(after, r)
  {
    ScaleOne(before.carriedSum, before.sum, v, w, g, r);
    ScaleOne(before.carriedWeight, before.weight, 1.0, w, g, r);
  }

  lemma {:induction false} RatioScales(cells: seq<Cell>, r: real)
    requires InRatio(cells, r)
    ensures Scaled(TotalsOf(cells), r)
    decreases |cells|
  {
    var p := LastWithName(cells);
    if p < 0 {
      NothingCarried(cells);
    } else {
      LastGroup(cells, p);
      RatioFront(cells, p, r);
      RatioScales(cells[..p], r);
      ScaleGroup(TotalsOf(cells[..p]), TotalsOf(cells), cells[p].value.value, cells[p].weight, GapAfter(cells, p + 1),
          r);
    }
  }

  lemma {:induction false} RatioFront(cells: seq<Cell>, p: nat, r: real)
    requires InRatio(cells, r) && p < |cells| && cells[p].value.Some?
    ensures InRatio(cells[..p], r)
  {
    forall q | 0 <= q < p && cells[..p][q].value.Some?
      ensures GapAfter(cells[..p], q + 1) == r * cells[..p][q].weight
    {
      GapPrefix(cells, p, q + 1);
    }
  }

  predicate HasName(cells: seq<Cell>, p: int)
  {
    0 <= p < |cells| && cells[p].value.Some?
  }

  /** The gaps after two rows are in the ratio of their weights. */
  predicate InStep(cells: seq<Cell>, p: nat, q: nat)
    requires p < |cells| && q < |cells|
  {
    GapAfter(cells, p + 1) * cells[q].weight == GapAfter(cells, q + 1) * cells[p].weight
  }

  ghost predicate Proportional(cells: seq<Cell>)
  {
    forall p, q :: HasName(cells, p) && HasName(cells, q) ==> InStep(cells, p, q)
  }

  lemma {:induction false} GapNonNegative(cells: seq<Cell>, i: nat)
    requires Positive(cells)
    ensures GapAfter(cells, i) >= 0.0
    ensures i < |cells| && cells[i].value.None? ==> GapAfter(cells, i) > 0.0
    decreases |cells| - i
  {
    if i < |cells| && cells[i].value.None? {
      GapNonNegative(cells, i + 1);
    }
  }

  lemma {:induction false} PresentPositive(cells: seq<Cell>, p: nat)
    requires Positive(cells) && p < |cells| && cells[p].value.Some?
    ensures PresentWeight(cells) > 0.0
  {
    var n := |cells| - 1;
    PresentNonNegative(cells[..n]);
    if p < n {
      PresentPositive(cells[..n], p);
    }
  }

  lemma {:induction false} PresentNonNegative(cells: seq<Cell>)
    requires Positive(cells)
    ensures PresentWeight(cells) >= 0.0
  {
    if cells != [] {
      PresentNonNegative(cells[..|cells|-1]);
    }
  }

  lemma {:induction false} RatioOf(gp: real, wp: real, gq: real, wq: real)
    requires wp > 0.0 && gp * wq == gq * wp
    ensures gq == gp / wp * wq
  {
    assert gp / wp * wp == gp;
    assert (gp / wp * wq) * wp == gq * wp;
    CancelFactor(gp / wp * wq, gq, wp);
  }

  lemma {:induction false} CancelFactor(a: real, b: real, c: real)
    requires c != 0.0 && a * c == b * c
    ensures a == b
  {
  }

  lemma {:induction false} ScaledQuotient(x: Totals, r: real)
    requires Scaled(x, r) && r >= 0.0 && x.weight > 0.0
    ensures Agrees(x)
  {
    var m := x.sum / x.weight;
    assert m * x.weight == x.sum;
    assert m * ((1.0 + r) * x.weight) == (1.0 + r) * x.sum;
    assert (1.0 + r) * x.weight >= x.weight by {
      assert (1.0 + r) * x.weight == x.weight + r * x.weight;
      assert r * x.weight >= 0.0;
    }
    CancelMean(m, x.carriedWeight, x.carriedSum);
  }

  lemma {:induction false} StepRatio(cells: seq<Cell>, p: nat, q: nat)
    requires Positive(cells) && HasName(cells, p) && HasName(cells, q) && InStep(cells, p, q)
    ensures GapAfter(cells, q + 1) == GapAfter(cells, p + 1) / cells[p].weight * cells[q].weight
  {
    RatioOf(GapAfter(cells, p + 1), cells[p].weight, GapAfter(cells, q + 1), cells[q].weight);
  }

  lemma {:induction false} ProportionalRatio(cells: seq<Cell>, p: nat) returns (r: real)
    requires Positive(cells) && Proportional(cells) && HasName(cells, p)
    ensures r >= 0.0 && InRatio(cells, r)
  {
    r := GapAfter(cells, p + 1) / cells[p].weight;
    forall q | 0 <= q < |cells| && cells[q].value.Some?
      ensures GapAfter(cells, q + 1) == r * cells[q].weight
    {
      assert HasName(cells, q);
      StepRatio(cells, p, q);
    }
    GapNonNegative(cells, p + 1);
  }

  lemma {:induction false} ProportionalMean(cells: seq<Cell>, p: nat)
    requires Positive(cells) && Proportional(cells) && HasName(cells, p)
    ensures AggregateIsMean(cells)
  {
    var r := ProportionalRatio(cells, p);
    RatioScales(cells, r);
    PresentPositive(cells, p);
    ScaledQuotient(TotalsOf(cells), r);
  }

  /* ---- Necessary: values that tell two ratios apart ---- */

  /** The same rows with one at row p and nothing in the other rows that have the name. */
  function Marked(cells: seq<Cell>, p: nat): (r: seq<Cell>)
    ensures |r| == |cells|
  {
    seq(|cells|, i requires 0 <= i < |cells| =>
      Cell(if cells[i].value.None? then None else Some(if i == p then 1.0 else 0.0), cells[i].weight))
  }

  predicate SameShape(c: seq<Cell>, d: seq<Cell>)
  {
    |c| == |d| && forall i :: 0 <= i < |c| ==> c[i].weight == d[i].weight && (c[i].value.None? <==> d[i].value.None?)
  }

  lemma {:induction false} GapShape(c: seq<Cell>, d: seq<Cell>, i: nat)
    requires SameShape(c, d)
    ensures GapAfter(c, i) == GapAfter(d, i)
    decreases |c| - i
  {
    if i < |c| {
      GapShape(c, d, i + 1);
    }
  }

  /** What the marked rows add up to. */
  ghost predicate MarkedTotals(cells: seq<Cell>, p: nat, x: Totals, y: Totals)
  {
    && x.carriedWeight == y.carriedWeight && x.weight == y.weight
    && (p >= |cells| ==> x.carriedSum == 0.0 && x.sum == 0.0)
    && (p < |cells| && cells[p].value.Some? ==>
         x.carriedSum == cells[p].weight + GapAfter(cells, p + 1) && x.sum == cells[p].weight)
  }

  lemma {:induction false} MarkStep(cells: seq<Cell>, l: nat, p: nat, x0: Totals, y0: Totals, x: Totals, y: Totals,
      u: real)
    requires l < |cells| && cells[l].value.Some? && (forall j :: l < j < |cells| ==> cells[j].value.None?)
    requires MarkedTotals(cells[..l], p, x0, y0)
    requires Adds(x0, x, if p == l then 1.0 else 0.0, cells[l].weight, GapAfter(cells, l + 1))
    requires Adds(y0, y, u, cells[l].weight, GapAfter(cells, l + 1))
    ensures MarkedTotals(cells, p, x, y)
  {
    if p < l && cells[p].value.Some? {
      GapPrefix(cells, l, p + 1);
    }
  }

  lemma {:induction false} MarkedAre(cells: seq<Cell>, p: nat)
    ensures MarkedTotals(cells, p, TotalsOf(Marked(cells, p)), TotalsOf(cells))
    decreases |cells|
  {
    var marked := Marked(cells, p);
    var l := LastWithName(cells);
    if l < 0 {
      NothingCarried(cells);
      NothingCarried(marked);
    } else {
      LastGroup(cells, l);
      LastGroup(marked, l);
      GapShape(cells, marked, l + 1);
      assert marked[..l] == Marked(cells[..l], p);
      MarkedAre(cells[..l], p);
      MarkStep(cells, l, p, TotalsOf(marked[..l]), TotalsOf(cells[..l]), TotalsOf(marked), TotalsOf(cells),
          cells[l].value.value);
    }
  }

  /** The share that a row with its gap has of all carried weight is the share it has of the plain weight. */
  predicate FairShare(x: Totals, w: real, g: real)
  {
    (w + g) * x.weight == w * x.carriedWeight
  }

  lemma {:induction false} EqualQuotients(x: Totals, w: real, g: real)
    requires x.carriedSum == w + g && x.sum == w && x.weight > 0.0 && x.carriedWeight > 0.0 && Agrees(x)
    ensures FairShare(x, w, g)
  {
    var m := w / x.weight;
    assert m * x.weight == w && m * x.carriedWeight == w + g;
    assert (m * x.carriedWeight) * x.weight == (m * x.weight) * x.carriedWeight;
  }

  lemma {:induction false} CrossMultiply(x: Totals, wp: real, gp: real, wq: real, gq: real)
    requires x.weight > 0.0 && FairShare(x, wp, gp) && FairShare(x, wq, gq)
    ensures gp * wq == gq * wp
  {
    var t, c := x.weight, x.carriedWeight;
    assert ((wp + gp) * t) * wq == (wp * c) * wq == (wq * c) * wp == ((wq + gq) * t) * wp;
    assert ((wp + gp) * wq) * t == ((wq + gq) * wp) * t;
    CancelFactor((wp + gp) * wq, (wq + gq) * wp, t);
    assert (wp + gp) * wq == wp * wq + gp * wq && (wq + gq) * wp == wq * wp + gq * wp;
  }

  lemma {:induction false} SameShare(x: Totals, y: Totals, w: real, g: real)
    requires FairShare(x, w, g) && x.weight == y.weight && x.carriedWeight == y.carriedWeight
    ensures FairShare(y, w, g)
  {
  }

  lemma {:induction false} CarriedPositive(cells: seq<Cell>, p: nat)
    requires Positive(cells) && p < |cells| && cells[p].value.Some?
    ensures PresentWeight(Carry(cells)) > 0.0
    decreases |cells|
  {
    CarryPositive(cells);
    var l := LastWithName(cells);
    LastGroup(cells, l);
    GapNonNegative(cells, l + 1);
    PresentNonNegative(Carry(cells[..l]));
  }

  lemma {:induction false} CarryPositive(cells: seq<Cell>)
    requires Positive(cells)
    ensures Positive(Carry(cells)) && forall l :: 0 <= l <= |cells| ==> Positive(Carry(cells[..l]))
  {
    if cells != [] {
      var n := |cells| - 1;
      CarryPositive(cells[..n]);
      assert cells[..|cells|] == cells;
      forall l | 0 <= l <= |cells|
        ensures Positive(Carry(cells[..l]))
      {
        if l <= n {
          assert cells[..l] == cells[..n][..l];
        }
      }
    } else {
      assert forall l :: 0 <= l <= |cells| ==> cells[..l] == [];
    }
  }

  /** If the aggregate is the mean with row p marked, the row and its gap have their share. */
  lemma {:induction false} MarkForces(cells: seq<Cell>, p: nat)
    requires Positive(cells) && HasName(cells, p) && AggregateIsMean(Marked(cells, p))
    ensures TotalsOf(cells).weight > 0.0 && FairShare(TotalsOf(cells), cells[p].weight, GapAfter(cells, p + 1))
  {
    var x, y := TotalsOf(Marked(cells, p)), TotalsOf(cells);
    MarkedAre(cells, p);
    PresentPositive(cells, p);
    CarriedPositive(cells, p);
    EqualQuotients(x, cells[p].weight, GapAfter(cells, p + 1));
    SameShare(x, y, cells[p].weight, GapAfter(cells, p + 1));
  }

  lemma {:induction false} MarksForceStep(cells: seq<Cell>, p: nat, q: nat)
    requires Positive(cells) && HasName(cells, p) && HasName(cells, q)
    requires AggregateIsMean(Marked(cells, p)) && AggregateIsMean(Marked(cells, q))
    ensures InStep(cells, p, q)
  {
    MarkForces(cells, p);
    MarkForces(cells, q);
    CrossMultiply(TotalsOf(cells), cells[p].weight, GapAfter(cells, p + 1), cells[q].weight, GapAfter(cells, q + 1));
  }

  lemma {:induction false} StepShape(c: seq<Cell>, d: seq<Cell>, p: nat, q: nat)
    requires SameShape(c, d) && p < |c| && q < |c| && InStep(c, p, q)
    ensures InStep(d, p, q)
  {
    GapShape(c, d, p + 1);
    GapShape(c, d, q + 1);
  }

  lemma {:induction false} ProportionalShape(c: seq<Cell>, d: seq<Cell>)
    requires SameShape(c, d) && Proportional(c)
    ensures Proportional(d)
  {
    forall p, q | HasName(d, p) && HasName(d, q)
      ensures InStep(d, p, q)
    {
      assert HasName(c, p) && HasName(c, q);
      StepShape(c, d, p, q);
    }
  }

  /**
   * For rows with given weights, the aggregate is the weighted mean whatever the values exactly when the weight of the
   * rows without the name that follow each row with it is in one ratio to that row's own weight.
   */
  lemma {:induction false} MeanExactlyInRatio(cells: seq<Cell>)
    requires Positive(cells) && exists i :: HasName(cells, i)
    ensures Proportional(cells) <==> forall d :: SameShape(cells, d) ==> AggregateIsMean(d)
  {
    if Proportional(cells) {
      var i :| HasName(cells, i);
      forall d | SameShape(cells, d)
        ensures AggregateIsMean(d)
      {
        ProportionalShape(cells, d);
        ProportionalMean(d, i);
      }
    } else {
      var d := RatioNeeded(cells);
    }
  }

  lemma {:induction false} RatioNeeded(cells: seq<Cell>) returns (d: seq<Cell>)
    requires Positive(cells) && !Proportional(cells)
    ensures SameShape(cells, d) && !AggregateIsMean(d)
  {
    var p, q :| HasName(cells, p) && HasName(cells, q) && !InStep(cells, p, q);
    d := Marked(cells, p);
    if AggregateIsMean(d) {
      d := Marked(cells, q);
      if AggregateIsMean(d) {
        MarksForceStep(cells, p, q);
      }
    }
  }

  /* ---- For all weights: the pattern of rows ---- */

  predicate AtMostOne(present: seq<bool>)
  {
    forall i, j :: 0 <= i < |present| && 0 <= j < |present| && present[i] && present[j] ==> i == j
  }

  /** From the first row with the name on, every row has it. */
  predicate Unbroken(present: seq<bool>)
  {
    forall i, j :: 0 <= i < j < |present| && present[i] ==> present[j]
  }

  lemma {:induction false} NoGap(cells: seq<Cell>, present: seq<bool>, p: nat)
    requires Matches(cells, present) && Unbroken(present) && p < |cells| && present[p]
    ensures GapAfter(cells, p + 1) == 0.0
  {
    if p + 1 < |cells| {
      assert present[p+1];
    }
  }

  lemma {:induction false} PatternSuffices(cells: seq<Cell>, present: seq<bool>)
    requires Matches(cells, present) && (AtMostOne(present) || Unbroken(present))
    ensures Proportional(cells)
  {
    forall p, q | HasName(cells, p) && HasName(cells, q)
      ensures InStep(cells, p, q)
    {
      if Unbroken(present) {
        NoGap(cells, present, p);
        NoGap(cells, present, q);
      } else {
        assert p == q;
      }
    }
  }

  lemma {:induction false} LastBefore(present: seq<bool>, a: nat, e: nat) returns (p: nat)
    requires a < e < |present| && present[a] && !present[e]
    ensures p < e && present[p] && !present[p+1]
    decreases e
  {
    if present[e-1] {
      p := e - 1;
    } else {
      p := LastBefore(present, a, e - 1);
    }
  }

  /** Rows of weight one, but for row p. */
  function Weighing(present: seq<bool>, p: nat, x: real): (cells: seq<Cell>)
    ensures |cells| == |present|
  {
    seq(|present|, i requires 0 <= i < |present| =>
        Cell(if present[i] then Some(0.0) else None, if i == p then x else 1.0))
  }

  lemma {:induction false} GapWeighing(present: seq<bool>, p: nat, x: real, y: real, i: nat)
    requires p < |present| && present[p]
    ensures GapAfter(Weighing(present, p, x), i) == GapAfter(Weighing(present, p, y), i)
    decreases |present| - i
  {
    if i < |present| {
      GapWeighing(present, p, x, y, i + 1);
    }
  }

  lemma {:induction false} HeavierBreaks(present: seq<bool>, p: nat, q: nat)
    requires p < |present| && q < |present| && p != q && present[p] && GapAfter(Weighing(present, p, 1.0), p + 1) > 0.0
    ensures !InStep(Weighing(present, p, 1.0), p, q) || !InStep(Weighing(present, p, 2.0), p, q)
  {
    GapWeighing(present, p, 1.0, 2.0, p + 1);
    GapWeighing(present, p, 1.0, 2.0, q + 1);
  }

  /** In every other pattern some weights are in no ratio. */
  lemma {:induction false} PatternNeeded(present: seq<bool>) returns (cells: seq<Cell>)
    requires !AtMostOne(present) && !Unbroken(present)
    ensures Matches(cells, present) && Positive(cells) && !Proportional(cells)
  {
    var a, e :| 0 <= a < e < |present| && present[a] && !present[e];
    var p := LastBefore(present, a, e);
    var i, j :| 0 <= i < |present| && 0 <= j < |present| && present[i] && present[j] && i != j;
    var q := if i == p then j else i;
    cells := Weighing(present, p, 1.0);
    GapNonNegative(cells, p + 1);
    HeavierBreaks(present, p, q);
    assert HasName(cells, p) && HasName(cells, q);
    if InStep(cells, p, q) {
      cells := Weighing(present, p, 2.0);
      assert HasName(cells, p) && HasName(cells, q);
    }
  }

  /**
   * For all values and all positive weights the aggregate is the weighted mean exactly when at most one row has the
   * name, or no row after the first one that has it lacks it.
   */
  lemma {:induction false} MeanExactlyInPattern(present: seq<bool>)
    requires exists i :: 0 <= i < |present| && present[i]
    ensures AtMostOne(present) || Unbroken(present) <==>
      forall cells :: Matches(cells, present) && Positive(cells) ==> AggregateIsMean(cells)
  {
    if AtMostOne(present) || Unbroken(present) {
      var i :| 0 <= i < |present| && present[i];
      forall cells | Matches(cells, present) && Positive(cells)
        ensures AggregateIsMean(cells)
      {
        PatternSuffices(cells, present);
        ProportionalMean(cells, i);
      }
    } else {
      var cells := PatternMissesMean(present);
    }
  }

  lemma {:induction false} PatternMissesMean(present: seq<bool>) returns (d: seq<Cell>)
    requires !AtMostOne(present) && !Unbroken(present)
    ensures Matches(d, present) && Positive(d) && !AggregateIsMean(d)
  {
    var cells := PatternNeeded(present);
    d := RatioNeeded(cells);
  }

  /* ---- Rows ---- */

  /** What Done makes of a name. */
  function DoneValue(rows: seq<Row>, k: string): real
  {
    Quotient(WeightedSum(Carried(rows, k)), PresentWeight(Carried(rows, k)))
  }

  /** The weighted mean of the counted rows that have the name. */
  function RowsMean(rows: seq<Row>, k: string): real
  {
    var cells := Cells(Counted(rows), k);
    Quotient(WeightedSum(cells), PresentWeight(cells))
  }

  /** The counted rows have positive weights and the name where the pattern says so. */
  predicate Shows(rows: seq<Row>, k: string, present: seq<bool>)
  {
    Matches(Cells(Counted(rows), k), present) && Positive(Cells(Counted(rows), k))
  }

  lemma {:induction false} DoneIsAggregate(rows: seq<Row>, k: string)
    ensures DoneValue(rows, k) == RowsMean(rows, k) <==> AggregateIsMean(Cells(Counted(rows), k))
  {
    CarriedIsCarry(rows, k);
  }

  lemma {:induction false} RowFor(c: Cell, k: string) returns (r: Row)
    ensures Cell(Look(r.metrics, k), r.weight) == c && (c.weight > 0.0 ==> !Skipped(r))
  {
    var other := k + "'";
    assert |other| != |k|;
    r := Row(map[other := 0.0] + (if c.value.Some? then map[k := c.value.value] else map[]), c.weight);
    assert other in r.metrics;
  }

  lemma {:induction false} CountedNext(rows: seq<Row>, r: Row, k: string)
    requires !Skipped(r)
    ensures Counted(rows + [r]) == Counted(rows) + [r]
    ensures Cells(rows + [r], k) == Cells(rows, k) + [Cell(Look(r.metrics, k), r.weight)]
  {
    assert (rows + [r])[..|rows|] == rows;
  }

  lemma {:induction false} RowsNext(front: seq<Row>, r: Row, cells: seq<Cell>, k: string)
    requires cells != [] && !Skipped(r) && Cell(Look(r.metrics, k), r.weight) == cells[|cells|-1]
    requires Counted(front) == front && Cells(front, k) == cells[..|cells|-1]
    ensures Counted(front + [r]) == front + [r] && Cells(front + [r], k) == cells
  {
    CountedNext(front, r, k);
  }

  /** Rows for given cells: a second name keeps every row from being empty. */
  lemma {:induction false} RowsFor(cells: seq<Cell>, k: string) returns (rows: seq<Row>)
    requires Positive(cells)
    ensures Counted(rows) == rows && Cells(rows, k) == cells
  {
    if cells == [] {
      rows := [];
    } else {
      var front := RowsFor(cells[..|cells|-1], k);
      var r := RowFor(cells[|cells|-1], k);
      RowsNext(front, r, cells, k);
      rows := front + [r];
    }
  }

  /**
   * The aggregate over rows: for all values and all positive weights it is the weighted mean exactly when at most one
   * counted row has the name, or no counted row after the first one that has it lacks it.
   */
  lemma {:induction false} DoneExactlyInPattern(present: seq<bool>, k: string)
    requires exists i :: 0 <= i < |present| && present[i]
    ensures AtMostOne(present) || Unbroken(present) <==>
      forall rows :: Shows(rows, k, present) ==> DoneValue(rows, k) == RowsMean(rows, k)
  {
    MeanExactlyInPattern(present);
    if AtMostOne(present) || Unbroken(present) {
      forall rows | Shows(rows, k, present)
        ensures DoneValue(rows, k) == RowsMean(rows, k)
      {
        DoneIsAggregate(rows, k);
      }
    } else {
      var cells := PatternMissesMean(present);
      var rows := RowsFor(cells, k);
      DoneIsAggregate(rows, k);
      assert Shows(rows, k, present);
    }
  }

  /** The name with 4 and then 0, and then a row without it, all of weight one: the aggregate is 4/3, the mean is 2. */
  lemma {:induction false} StaleRowChangesMean()
    ensures var r, s, t := Row(map["a" := 4.0], 1.0), Row(map["a" := 0.0], 1.0), Row(map["b" := 1.0], 1.0);
      DoneValue([r, s, t], "a") == 4.0 / 3.0 && RowsMean([r, s, t], "a") == 2.0
  {
    var r, s, t := Row(map["a" := 4.0], 1.0), Row(map["a" := 0.0], 1.0), Row(map["b" := 1.0], 1.0);
    var rows := [r, s, t];
    var cells := [Cell(Some(4.0), 1.0), Cell(Some(0.0), 1.0), Cell(None, 1.0)];
    assert "a" in r.metrics && "a" in s.metrics && "b" in t.metrics;
    CountedNext([], r, "a");
    CountedNext([r], s, "a");
    CountedNext([r, s], t, "a");
    assert [] + [r] == [r] && [r] + [s] == [r, s] && [r, s] + [t] == rows;
    assert Cells(rows, "a") == cells;
    StaleTotals(cells);
    CarriedIsCarry(rows, "a");
  }

  lemma {:induction false} OneTotals(one: seq<Cell>, v: real, w: real)
    requires |one| == 1 && one[0] == Cell(Some(v), w)
    ensures TotalsOf(one) == Totals(v * w, w, v * w, w)
  {
    GroupOfOne(one);
    NothingCarried(one[..0]);
  }

  lemma {:induction false} StaleTotals(cells: seq<Cell>)
    requires |cells| == 3 && cells[0] == Cell(Some(4.0), 1.0) && cells[1] == Cell(Some(0.0), 1.0)
      && cells[2] == Cell(None, 1.0)
    ensures TotalsOf(cells) == Totals(4.0, 3.0, 4.0, 2.0)
  {
    OneTotals(cells[..1], 4.0, 1.0);
    LastGroup(cells, 1);
    GapOfOne(cells);
    AddNothing(TotalsOf(cells[..1]), TotalsOf(cells));
  }

  lemma {:induction false} GapOfOne(cells: seq<Cell>)
    requires |cells| == 3 && cells[2] == Cell(None, 1.0)
    ensures GapAfter(cells, 2) == 1.0
  {
    assert GapAfter(cells, 3) == 0.0;
  }

  lemma {:induction false} AddNothing(before: Totals, after: Totals)
    requires Adds(before, after, 0.0, 1.0, 1.0) && before == Totals(4.0, 1.0, 4.0, 1.0)
    ensures after == Totals(4.0, 3.0, 4.0, 2.0)
  {
  }
}
