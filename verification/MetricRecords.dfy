/**
 * What the columns of a usage record are after all its rows, name by name: the sum, the smallest and the largest of the
 * values that rows have for the name, and the weight of all rows (pkg/sqlite3/sqlite3.go).
 */
module MetricRecords {
  import opened MetricMaps

  /** Row i has the name. */
  predicate HasAt(rows: seq<Row>, i: int, k: string)
  {
    0 <= i < |rows| && k in rows[i].metrics
  }

  ghost predicate Named(rows: seq<Row>, k: string)
  {
    exists i :: HasAt(rows, i, k)
  }

  function SumAt(rows: seq<Row>, k: string): real
  {
    if rows == [] then 0.0
    else SumAt(rows[..|rows|-1], k) + if k in rows[|rows|-1].metrics then rows[|rows|-1].metrics[k] else 0.0
  }

  function AllWeights(rows: seq<Row>): real
  {
    if rows == [] then 0.0 else AllWeights(rows[..|rows|-1]) + rows[|rows|-1].weight
  }

  ghost predicate Smallest(rows: seq<Row>, k: string, min: real)
  {
    && (forall i :: HasAt(rows, i, k) ==> min <= rows[i].metrics[k])
    && exists i :: HasAt(rows, i, k) && rows[i].metrics[k] == min
  }

  ghost predicate Largest(rows: seq<Row>, k: string, max: real)
  {
    && (forall i :: HasAt(rows, i, k) ==> rows[i].metrics[k] <= max)
    && exists i :: HasAt(rows, i, k) && rows[i].metrics[k] == max
  }

  lemma {:induction false} NamedNext(rows: seq<Row>, k: string)
    requires rows != []
    ensures Named(rows, k) <==> Named(rows[..|rows|-1], k) || k in rows[|rows|-1].metrics
  {
    var n := |rows| - 1;
    if Named(rows[..n], k) {
      var i :| HasAt(rows[..n], i, k);
      assert HasAt(rows, i, k);
    }
    if k in rows[n].metrics {
      assert HasAt(rows, n, k);
    }
    if Named(rows, k) && k !in rows[n].metrics {
      var i :| HasAt(rows, i, k);
      assert HasAt(rows[..n], i, k);
    }
  }

  lemma {:induction false} Unnamed(rows: seq<Row>, k: string)
    requires !Named(rows, k)
    ensures SumAt(rows, k) == 0.0
  {
    if rows != [] {
      NamedNext(rows, k);
      Unnamed(rows[..|rows|-1], k);
    }
  }

  lemma {:induction false} SmallestNext(rows: seq<Row>, k: string, before: real, min: real)
    requires rows != [] && (Named(rows[..|rows|-1], k) ==> Smallest(rows[..|rows|-1], k, before))
    requires Named(rows, k)
    requires var r, old' := rows[|rows|-1].metrics, Named(rows[..|rows|-1], k);
      min == if k in r && old' then (if before < r[k] then before else r[k]) else if old' then before
        else if k in r then r[k] else min
    ensures Smallest(rows, k, min)
  {
    var n := |rows| - 1;
    NamedNext(rows, k);
    forall i | HasAt(rows, i, k) ensures min <= rows[i].metrics[k] {
      if i < n {
        assert HasAt(rows[..n], i, k);
      }
    }
    if Named(rows[..n], k) && min == before {
      var i :| HasAt(rows[..n], i, k) && rows[..n][i].metrics[k] == before;
      assert HasAt(rows, i, k);
    } else {
      assert HasAt(rows, n, k);
    }
  }

  lemma {:induction false} LargestNext(rows: seq<Row>, k: string, before: real, max: real)
    requires rows != [] && (Named(rows[..|rows|-1], k) ==> Largest(rows[..|rows|-1], k, before))
    requires Named(rows, k)
    requires var r, old' := rows[|rows|-1].metrics, Named(rows[..|rows|-1], k);
      max == if k in r && old' then (if before > r[k] then before else r[k]) else if old' then before
        else if k in r then r[k] else max
    ensures Largest(rows, k, max)
  {
    var n := |rows| - 1;
    NamedNext(rows, k);
    forall i | HasAt(rows, i, k) ensures rows[i].metrics[k] <= max {
      if i < n {
        assert HasAt(rows[..n], i, k);
      }
    }
    if Named(rows[..n], k) && max == before {
      var i :| HasAt(rows[..n], i, k) && rows[..n][i].metrics[k] == before;
      assert HasAt(rows, i, k);
    } else {
      assert HasAt(rows, n, k);
    }
  }

  /** The names of a record are those of its rows, in every column, and its weight is that of all rows. */
  lemma {:induction false} RecordNames(rows: seq<Row>, k: string)
    requires rows != []
    ensures var u := Record(rows);
      && (k in u.total <==> Named(rows, k)) && (k in u.avg <==> Named(rows, k))
      && (k in u.min <==> Named(rows, k)) && (k in u.max <==> Named(rows, k))
      && u.weight == AllWeights(rows)
  {
    var n := |rows| - 1;
    NamedNext(rows, k);
    if n > 0 {
      RecordNames(rows[..n], k);
    } else {
      assert rows[..0] == [];
    }
  }

  lemma {:induction false} RecordTotal(rows: seq<Row>, k: string)
    requires rows != [] && Named(rows, k) && k in Record(rows).total
    ensures Record(rows).total[k] == SumAt(rows, k)
  {
    var n := |rows| - 1;
    NamedNext(rows, k);
    if n > 0 {
      RecordNames(rows[..n], k);
      if Named(rows[..n], k) {
        RecordTotal(rows[..n], k);
      } else {
        Unnamed(rows[..n], k);
      }
    } else {
      assert rows[..0] == [];
    }
  }

  lemma {:induction false} RecordMin(rows: seq<Row>, k: string)
    requires rows != [] && Named(rows, k) && k in Record(rows).min
    ensures Smallest(rows, k, Record(rows).min[k])
  {
    var n := |rows| - 1;
    NamedNext(rows, k);
    if n > 0 {
      RecordNames(rows[..n], k);
      var before := At(Record(rows[..n]).min, k);
      if Named(rows[..n], k) {
        RecordMin(rows[..n], k);
      }
      SmallestNext(rows, k, before, Record(rows).min[k]);
    } else {
      SmallestNext(rows, k, 0.0, Record(rows).min[k]);
    }
  }

  lemma {:induction false} RecordMax(rows: seq<Row>, k: string)
    requires rows != [] && Named(rows, k) && k in Record(rows).max
    ensures Largest(rows, k, Record(rows).max[k])
  {
    var n := |rows| - 1;
    NamedNext(rows, k);
    if n > 0 {
      RecordNames(rows[..n], k);
      var before := At(Record(rows[..n]).max, k);
      if Named(rows[..n], k) {
        RecordMax(rows[..n], k);
      }
      LargestNext(rows, k, before, Record(rows).max[k]);
    } else {
      LargestNext(rows, k, 0.0, Record(rows).max[k]);
    }
  }

  /** At every name of its rows a record has their sum, their minimum and their maximum. */
  lemma {:induction false} RecordIs(rows: seq<Row>, k: string)
    requires rows != [] && Named(rows, k)
    ensures var u := Record(rows);
      && k in u.total && u.total[k] == SumAt(rows, k)
      && k in u.min && Smallest(rows, k, u.min[k])
      && k in u.max && Largest(rows, k, u.max[k])
  {
    RecordNames(rows, k);
    RecordTotal(rows, k);
    RecordMin(rows, k);
    RecordMax(rows, k);
  }
}
