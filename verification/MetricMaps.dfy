/**
 * Maps of named metrics as the database keeps them in its usage columns: added, averaged, and their minima and maxima,
 * two at a time and over the rows of a record (pkg/sqlite3/sqlite3.go).
 */
module MetricMaps {
  import opened Options

  type MetricMap = map<string, real>

  function AddMaps(a: MetricMap, b: MetricMap): MetricMap
  {
    map k | k in a.Keys + b.Keys :: if k in a && k in b then b[k] + a[k] else if k in a then a[k] else b[k]
  }

  function Min(x: real, y: real): real
  {
    if x < y then x else y
  }

  function Max(x: real, y: real): real
  {
    if x > y then x else y
  }

  function MinMaps(a: MetricMap, b: MetricMap): MetricMap
  {
    map k | k in a.Keys + b.Keys :: if k in a && k in b then Min(b[k], a[k]) else if k in a then a[k] else b[k]
  }

  function MaxMaps(a: MetricMap, b: MetricMap): MetricMap
  {
    map k | k in a.Keys + b.Keys :: if k in a && k in b then Max(b[k], a[k]) else if k in a then a[k] else b[k]
  }

  function Look(m: MetricMap, k: string): Option<real>
  {
    if k in m then Some(m[k]) else None
  }

  /** What a map adds to the weighted sum of a name, and to its weight. */
  function Weighted(x: Option<real>, w: real): real
  {
    if x.Some? then x.value * w else 0.0
  }

  function WeightOf(x: Option<real>, w: real): real
  {
    if x.Some? then w else 0.0
  }

  /** A weighted sum divided by its weight, or left alone if there is no weight. */
  function Quotient(sum: real, weight: real): real
  {
    if weight > 0.0 then sum / weight else sum
  }

  function AvgCell(x: Option<real>, y: Option<real>, wx: real, wy: real): real
  {
    Quotient(Weighted(x, wx) + Weighted(y, wy), WeightOf(x, wx) + WeightOf(y, wy))
  }

  function AvgMaps(a: MetricMap, b: MetricMap, wa: real, wb: real): MetricMap
  {
    map k | k in a.Keys + b.Keys :: AvgCell(Look(a, k), Look(b, k), wa, wb)
  }

  /* ---- The functions registered with the driver ---- */

  method Pick(todo: set<string>) returns (k: string)
    requires todo != {}
    ensures k in todo
  {
    k :| k in todo;
  }

  method AddMetricMap(existing: MetricMap, current: MetricMap) returns (updated: MetricMap)
    ensures updated == AddMaps(existing, current)
  {
    updated := existing;
    var todo := current.Keys;
    while todo != {}
      invariant todo <= current.Keys
      invariant updated == AddMaps(existing, current - todo)
      decreases todo
    {
      var metricName := Pick(todo);
      if metricName in existing {
        updated := updated[metricName := current[metricName] + existing[metricName]];
      } else {
        updated := updated[metricName := current[metricName]];
      }
      todo := todo - {metricName};
    }
    assert current - {} == current;
  }

  method MinMetricMap(existing: MetricMap, current: MetricMap) returns (updated: MetricMap)
    ensures updated == MinMaps(existing, current)
  {
    updated := existing;
    var todo := current.Keys;
    while todo != {}
      invariant todo <= current.Keys
      invariant updated == MinMaps(existing, current - todo)
      decreases todo
    {
      var metricName := Pick(todo);
      if metricName in existing {
        updated := updated[metricName := Min(current[metricName], existing[metricName])];
      } else {
        updated := updated[metricName := current[metricName]];
      }
      todo := todo - {metricName};
    }
    assert current - {} == current;
  }

  method MaxMetricMap(existing: MetricMap, current: MetricMap) returns (updated: MetricMap)
    ensures updated == MaxMaps(existing, current)
  {
    updated := existing;
    var todo := current.Keys;
    while todo != {}
      invariant todo <= current.Keys
      invariant updated == MaxMaps(existing, current - todo)
      decreases todo
    {
      var metricName := Pick(todo);
      if metricName in existing {
        updated := updated[metricName := Max(current[metricName], existing[metricName])];
      } else {
        updated := updated[metricName := current[metricName]];
      }
      todo := todo - {metricName};
    }
    assert current - {} == current;
  }

  function At(m: MetricMap, k: string): real
  {
    if k in m then m[k] else 0.0
  }

  /** One pass of the accumulation loop: weighted values and weights of the names of one map. */
  method Accumulate(m: MetricMap, weight: real, sums: MetricMap, weights: MetricMap)
      returns (s: MetricMap, w: MetricMap)
    requires sums.Keys == weights.Keys
    ensures s.Keys == w.Keys == sums.Keys + m.Keys
    ensures forall k :: At(s, k) == At(sums, k) + Weighted(Look(m, k), weight)
    ensures forall k :: At(w, k) == At(weights, k) + WeightOf(Look(m, k), weight)
  {
    s, w := sums, weights;
    var todo := m.Keys;
    while todo != {}
      invariant todo <= m.Keys
      invariant s.Keys == w.Keys == sums.Keys + (m.Keys - todo)
      invariant forall k :: At(s, k) == At(sums, k) + if k in todo then 0.0 else Weighted(Look(m, k), weight)
      invariant forall k :: At(w, k) == At(weights, k) + if k in todo then 0.0 else WeightOf(Look(m, k), weight)
      decreases todo
    {
      var metricName := Pick(todo);
      ghost var s0, w0 := s, w;
      var product := m[metricName] * weight;
      assert product == Weighted(Look(m, metricName), weight);
      s := s[metricName := At(s, metricName) + product];
      w := w[metricName := At(w, metricName) + weight];
      todo := todo - {metricName};
      AtUpdate(s0, metricName, product);
      AtUpdate(w0, metricName, weight);
    }
  }

  lemma {:induction false} AtUpdate(s: MetricMap, x: string, d: real)
    ensures forall k :: At(s[x := At(s, x) + d], k) == At(s, k) + if k == x then d else 0.0
  {
  }

  /** Divide every weighted sum by its weight. */
  method Divide(sums: MetricMap, weights: MetricMap) returns (avg: MetricMap)
    requires sums.Keys == weights.Keys
    ensures avg.Keys == sums.Keys && forall k :: k in avg ==> avg[k] == Quotient(sums[k], weights[k])
  {
    avg := sums;
    var todo := sums.Keys;
    while todo != {}
      invariant todo <= sums.Keys && avg.Keys == sums.Keys
      invariant forall k :: k in avg ==> avg[k] == if k in todo then sums[k] else Quotient(sums[k], weights[k])
      decreases todo
    {
      var metricName := Pick(todo);
      if weights[metricName] > 0.0 {
        avg := avg[metricName := avg[metricName] / weights[metricName]];
      }
      todo := todo - {metricName};
    }
  }

  method AvgMetricMap(existing: MetricMap, current: MetricMap, existingWeight: real, currentWeight: real)
      returns (avg: MetricMap)
    ensures avg == AvgMaps(existing, current, existingWeight, currentWeight)
  {
    var s1, w1 := Accumulate(existing, existingWeight, map[], map[]);
    var s2, w2 := Accumulate(current, currentWeight, s1, w1);
    avg := Divide(s2, w2);
    AvgFrom(existing, current, existingWeight, currentWeight, s1, w1, s2, w2, avg);
  }

  lemma {:induction false} AvgFrom(a: MetricMap, b: MetricMap, wa: real, wb: real,
                                   s1: MetricMap, w1: MetricMap, s2: MetricMap, w2: MetricMap, avg: MetricMap)
    requires s2.Keys == w2.Keys == avg.Keys == a.Keys + b.Keys
    requires forall k ::
      && At(s1, k) == At(map[], k) + Weighted(Look(a, k), wa)
      && At(w1, k) == At(map[], k) + WeightOf(Look(a, k), wa)
    requires forall k ::
      && At(s2, k) == At(s1, k) + Weighted(Look(b, k), wb)
      && At(w2, k) == At(w1, k) + WeightOf(Look(b, k), wb)
    requires forall k :: k in avg ==> avg[k] == Quotient(s2[k], w2[k])
    ensures avg == AvgMaps(a, b, wa, wb)
  {
    forall k | k in avg
      ensures avg[k] == AvgCell(Look(a, k), Look(b, k), wa, wb)
    {
      AvgAt(Look(a, k), Look(b, k), wa, wb, At(s1, k), At(w1, k), At(s2, k), At(w2, k));
      assert At(s2, k) == s2[k] && At(w2, k) == w2[k];
    }
    AvgPointwise(a, b, wa, wb, avg);
  }

  lemma {:induction false} AvgAt(x: Option<real>, y: Option<real>, wx: real, wy: real,
                                 s1: real, w1: real, s2: real, w2: real)
    requires s1 == 0.0 + Weighted(x, wx) && w1 == 0.0 + WeightOf(x, wx)
    requires s2 == s1 + Weighted(y, wy) && w2 == w1 + WeightOf(y, wy)
    ensures Quotient(s2, w2) == AvgCell(x, y, wx, wy)
  {
  }

  lemma {:induction false} AvgPointwise(a: MetricMap, b: MetricMap, wa: real, wb: real, avg: MetricMap)
    requires avg.Keys == a.Keys + b.Keys && forall k :: k in avg ==> avg[k] == AvgCell(Look(a, k), Look(b, k), wa, wb)
    ensures avg == AvgMaps(a, b, wa, wb)
  {
  }

  /* ---- Algebra ---- */

  lemma {:induction false} Commutative(a: MetricMap, b: MetricMap)
    ensures AddMaps(a, b) == AddMaps(b, a)
    ensures MinMaps(a, b) == MinMaps(b, a)
    ensures MaxMaps(a, b) == MaxMaps(b, a)
  {
    assert a.Keys + b.Keys == b.Keys + a.Keys;
  }

  /** Maps are the same when they give every name the same. */
  lemma {:induction false} SameMaps(l: MetricMap, r: MetricMap)
    requires forall k :: Look(l, k) == Look(r, k)
    ensures l == r
  {
    forall k ensures k in l <==> k in r {
      assert Look(l, k) == Look(r, k);
    }
    assert forall k :: k in l ==> Look(l, k) == Look(r, k);
  }

  function AddValues(x: Option<real>, y: Option<real>): Option<real>
  {
    if x.Some? && y.Some? then Some(x.value + y.value) else if x.Some? then x else y
  }

  lemma {:induction false} LookAdd(a: MetricMap, b: MetricMap, k: string)
    ensures Look(AddMaps(a, b), k) == AddValues(Look(a, k), Look(b, k))
  {
  }

  lemma {:induction false} AddAssociative(a: MetricMap, b: MetricMap, c: MetricMap)
    ensures AddMaps(AddMaps(a, b), c) == AddMaps(a, AddMaps(b, c))
  {
    forall k ensures Look(AddMaps(AddMaps(a, b), c), k) == Look(AddMaps(a, AddMaps(b, c)), k) {
      LookAdd(AddMaps(a, b), c, k);
      LookAdd(a, b, k);
      LookAdd(a, AddMaps(b, c), k);
      LookAdd(b, c, k);
    }
    SameMaps(AddMaps(AddMaps(a, b), c), AddMaps(a, AddMaps(b, c)));
  }

  function MinValues(x: Option<real>, y: Option<real>): Option<real>
  {
    if x.Some? && y.Some? then Some(Min(y.value, x.value)) else if x.Some? then x else y
  }

  lemma {:induction false} LookMin(a: MetricMap, b: MetricMap, k: string)
    ensures Look(MinMaps(a, b), k) == MinValues(Look(a, k), Look(b, k))
  {
  }

  lemma {:induction false} MinAssociative(a: MetricMap, b: MetricMap, c: MetricMap)
    ensures MinMaps(MinMaps(a, b), c) == MinMaps(a, MinMaps(b, c))
  {
    forall k ensures Look(MinMaps(MinMaps(a, b), c), k) == Look(MinMaps(a, MinMaps(b, c)), k) {
      LookMin(MinMaps(a, b), c, k);
      LookMin(a, b, k);
      LookMin(a, MinMaps(b, c), k);
      LookMin(b, c, k);
    }
    SameMaps(MinMaps(MinMaps(a, b), c), MinMaps(a, MinMaps(b, c)));
  }

  function MaxValues(x: Option<real>, y: Option<real>): Option<real>
  {
    if x.Some? && y.Some? then Some(Max(y.value, x.value)) else if x.Some? then x else y
  }

  lemma {:induction false} LookMax(a: MetricMap, b: MetricMap, k: string)
    ensures Look(MaxMaps(a, b), k) == MaxValues(Look(a, k), Look(b, k))
  {
  }

  lemma {:induction false} MaxAssociative(a: MetricMap, b: MetricMap, c: MetricMap)
    ensures MaxMaps(MaxMaps(a, b), c) == MaxMaps(a, MaxMaps(b, c))
  {
    forall k ensures Look(MaxMaps(MaxMaps(a, b), c), k) == Look(MaxMaps(a, MaxMaps(b, c)), k) {
      LookMax(MaxMaps(a, b), c, k);
      LookMax(a, b, k);
      LookMax(a, MaxMaps(b, c), k);
      LookMax(b, c, k);
    }
    SameMaps(MaxMaps(MaxMaps(a, b), c), MaxMaps(a, MaxMaps(b, c)));
  }

  /* ---- A usage record over a run of updates ---- */

  datatype Row = Row(metrics: MetricMap, weight: real)

  /** The columns of a record: total, average, minimum, maximum and the weight so far. */
  datatype Usage = Usage(total: MetricMap, avg: MetricMap, min: MetricMap, max: MetricMap, weight: real)

  function Insert(r: Row): Usage
  {
    Usage(r.metrics, r.metrics, r.metrics, r.metrics, r.weight)
  }

  function Upsert(u: Usage, r: Row): Usage
  {
    Usage(AddMaps(u.total, r.metrics), AvgMaps(u.avg, r.metrics, u.weight, r.weight),
          MinMaps(u.min, r.metrics), MaxMaps(u.max, r.metrics), u.weight + r.weight)
  }

  function Record(rows: seq<Row>): Usage
    requires rows != []
  {
    if |rows| == 1 then Insert(rows[0]) else Upsert(Record(rows[..|rows|-1]), rows[|rows|-1])
  }

  lemma {:induction false} ProductNonNegative(x: real, y: real)
    requires x >= 0.0 && y >= 0.0
    ensures x * y >= 0.0
  {
  }

  lemma {:induction false} ProductMonotone(x: real, y: real, w: real)
    requires x <= y && w >= 0.0
    ensures x * w <= y * w
  {
    ProductNonNegative(y - x, w);
    assert (y - x) * w == y * w - x * w;
  }

  /** A weighted mean lies between any bounds of the two values. */
  lemma {:induction false} MeanBetween(x: real, y: real, wx: real, wy: real, lo: real, hi: real)
    requires wx > 0.0 && wy > 0.0 && lo <= x <= hi && lo <= y <= hi
    ensures lo <= (x * wx + y * wy) / (wx + wy) <= hi
  {
    SumOfProducts(lo, lo, x, y, wx, wy);
    SumOfProducts(x, y, hi, hi, wx, wy);
    Distribute(lo, wx, wy);
    Distribute(hi, wx, wy);
    var s, w, l, h := x * wx + y * wy, wx + wy, lo * (wx + wy), hi * (wx + wy);
    assert l <= s <= h;
    QuotientBounds(s, w, lo, hi);
  }

  lemma {:induction false} SumOfProducts(a: real, b: real, c: real, d: real, wx: real, wy: real)
    requires a <= c && b <= d && wx >= 0.0 && wy >= 0.0
    ensures a * wx + b * wy <= c * wx + d * wy
  {
    ProductMonotone(a, c, wx);
    ProductMonotone(b, d, wy);
  }

  lemma {:induction false} Distribute(x: real, wx: real, wy: real)
    ensures x * (wx + wy) == x * wx + x * wy
  {
  }

  lemma {:induction false} QuotientBounds(s: real, w: real, lo: real, hi: real)
    requires w > 0.0 && lo * w <= s <= hi * w
    ensures lo <= s / w <= hi
  {
    var q := s / w;
    assert q * w == s;
    ProductOrder(lo, q, w);
    ProductOrder(q, hi, w);
  }

  lemma {:induction false} ProductOrder(x: real, y: real, w: real)
    requires w > 0.0
    ensures x * w <= y * w ==> x <= y
  {
    if x > y {
      ProductPositive(x - y, w);
      assert (x - y) * w == x * w - y * w;
    }
  }

  lemma {:induction false} ProductPositive(x: real, y: real)
    requires x > 0.0 && y > 0.0
    ensures x * y > 0.0
  {
  }

  ghost predicate Bounded(u: Usage)
  {
    && u.weight > 0.0
    && u.total.Keys == u.avg.Keys == u.min.Keys == u.max.Keys
    && forall k :: k in u.avg ==> u.min[k] <= u.avg[k] <= u.max[k]
  }

  /** The average at one name: the mean of what both have, or what one of them has. */
  lemma {:induction false} AvgCellIs(x: Option<real>, y: Option<real>, wx: real, wy: real)
    requires wx > 0.0 && wy > 0.0
    ensures x.Some? && y.Some? ==> AvgCell(x, y, wx, wy) == (x.value * wx + y.value * wy) / (wx + wy)
    ensures x.Some? && y.None? ==> AvgCell(x, y, wx, wy) == x.value
    ensures x.None? && y.Some? ==> AvgCell(x, y, wx, wy) == y.value
  {
    var sum, weight := Weighted(x, wx) + Weighted(y, wy), WeightOf(x, wx) + WeightOf(y, wy);
    if x.Some? && y.None? {
      assert sum == x.value * wx && weight == wx;
      Cancel(x.value, wx);
    } else if x.None? && y.Some? {
      assert sum == y.value * wy && weight == wy;
      Cancel(y.value, wy);
    }
  }

  /** Without a positive weight the weighted sum is not divided. */
  lemma {:induction false} UndividedIs(x: real, y: real, wx: real, wy: real)
    ensures wx + wy <= 0.0 ==> AvgCell(Some(x), Some(y), wx, wy) == x * wx + y * wy
    ensures wx <= 0.0 ==> AvgCell(Some(x), None, wx, wy) == x * wx
    ensures wy <= 0.0 ==> AvgCell(None, Some(y), wx, wy) == y * wy
  {
  }

  lemma {:induction false} Cancel(x: real, w: real)
    requires w > 0.0
    ensures x * w / w == x
  {
  }

  lemma {:induction false} CellBetween(x: Option<real>, y: Option<real>, wx: real, wy: real, lo: real, hi: real)
    requires wx > 0.0 && wy > 0.0 && (x.Some? || y.Some?)
    requires x.Some? ==> lo <= x.value <= hi
    requires y.Some? ==> lo <= y.value <= hi
    ensures lo <= AvgCell(x, y, wx, wy) <= hi
  {
    AvgCellIs(x, y, wx, wy);
    if x.Some? && y.Some? {
      MeanBetween(x.value, y.value, wx, wy, lo, hi);
    }
  }

  lemma {:induction false} UpsertBounded(u: Usage, r: Row)
    requires Bounded(u) && r.weight > 0.0
    ensures Bounded(Upsert(u, r))
  {
    var v := Upsert(u, r);
    forall k | k in v.avg
      ensures v.min[k] <= v.avg[k] <= v.max[k]
    {
      CellBetween(Look(u.avg, k), Look(r.metrics, k), u.weight, r.weight, v.min[k], v.max[k]);
    }
  }

  /** After any run of rows with positive weights the columns have the same names, and min <= avg <= max at each. */
  lemma {:induction false} RecordBounded(rows: seq<Row>)
    requires rows != [] && forall i :: 0 <= i < |rows| ==> rows[i].weight > 0.0
    ensures Bounded(Record(rows))
  {
    if |rows| > 1 {
      RecordBounded(rows[..|rows|-1]);
      UpsertBounded(Record(rows[..|rows|-1]), rows[|rows|-1]);
    }
  }
}
