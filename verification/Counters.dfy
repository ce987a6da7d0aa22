/** Loops over a 64-bit counter that wraps (internal/common/helpers.go). */
module Counters {

  const MAX_INT: int := 0x7FFF_FFFF_FFFF_FFFF

  /** One more, for a 64-bit integer: after the largest comes the smallest. */
  function Next(i: int): int
  {
    if i == MAX_INT then -MAX_INT - 1 else i + 1
  }

  /** The counter of a loop after k rounds. */
  function Counter(start: int, k: nat): int
  {
    if k == 0 then start else Next(Counter(start, k - 1))
  }

  /** The guard of the loop up to end fails after some number of rounds. */
  ghost predicate Leaves(start: int, end: int)
  {
    exists k :: Counter(start, k) > end
  }

  /** Every round up to k finds the guard true. */
  ghost predicate Goes(start: int, end: int, k: nat)
  {
    forall j :: 0 <= j < k ==> Counter(start, j) <= end
  }

  ghost predicate LeavesAfter(start: int, end: int, k: nat)
  {
    Counter(start, k) > end && Goes(start, end, k)
  }

  lemma {:induction false} FirstFailure(start: int, end: int, k: nat) returns (r: nat)
    requires Counter(start, k) > end
    ensures LeavesAfter(start, end, r)
  {
    if j: nat :| j < k && Counter(start, j) > end {
      r := FirstFailure(start, end, j);
    } else {
      r := k;
    }
  }

  /** The rounds of a loop that is left. */
  ghost function Rounds(start: int, end: int): (k: nat)
    requires Leaves(start, end)
    ensures LeavesAfter(start, end, k)
  {
    assert exists k: nat :: LeavesAfter(start, end, k) by {
      var k: nat :| Counter(start, k) > end;
      var r := FirstFailure(start, end, k);
    }
    var k: nat :| LeavesAfter(start, end, k);
    k
  }

  predicate Int64(i: int)
  {
    -MAX_INT - 1 <= i <= MAX_INT
  }

  lemma {:induction false} CounterBounded(start: int, k: nat)
    requires Int64(start)
    ensures Int64(Counter(start, k))
  {
    if k > 0 {
      CounterBounded(start, k - 1);
    }
  }

  lemma {:induction false} CounterIs(start: int, k: nat)
    requires start + k <= MAX_INT
    ensures Counter(start, k) == start + k
  {
    if k > 0 {
      CounterIs(start, k - 1);
    }
  }

  /** The loop is left exactly when it is empty or ends below the largest integer. */
  lemma {:induction false} LeavesExactly(start: int, end: int)
    requires Int64(start) && Int64(end)
    ensures Leaves(start, end) <==> start > end || end < MAX_INT
  {
    if start > end {
      assert Counter(start, 0) > end;
    } else if end < MAX_INT {
      CounterIs(start, end + 1 - start);
    } else {
      forall k: nat ensures Counter(start, k) <= end {
        CounterBounded(start, k);
      }
    }
  }

  lemma {:induction false} RoundsAre(start: int, end: int)
    requires Int64(start) && Int64(end) && (start > end || end < MAX_INT)
    ensures Leaves(start, end) && Rounds(start, end) == if start > end then 0 else end + 1 - start
  {
    LeavesExactly(start, end);
    var k, r := if start > end then 0 else end + 1 - start, Rounds(start, end);
    CounterIs(start, k);
    if r < k {
      CounterIs(start, r);
    }
  }
}
