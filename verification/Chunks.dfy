/** Greedy chunking (internal/common/helpers.go). */
module Chunks {
  import opened Seqs

  function Sum(s: seq<int>): int
  {
    if s == [] then 0 else s[0] + Sum(s[1..])
  }

  function Concat<T>(xs: seq<seq<T>>): seq<T>
  {
    if xs == [] then [] else xs[0] + Concat(xs[1..])
  }

  predicate NonNegative(s: seq<int>)
  {
    forall i :: 0 <= i < |s| ==> s[i] >= 0
  }

  /** A chunk that the caller may use: one number, or several within the maximum. */
  predicate ValidChunk(c: seq<int>, maxSum: int)
  {
    |c| == 1 || (|c| > 1 && Sum(c) <= maxSum)
  }

  /** A cut of nums into consecutive valid chunks. */
  ghost predicate Partition(chunks: seq<seq<int>>, nums: seq<int>, maxSum: int)
  {
    && Concat(chunks) == nums
    && forall i :: 0 <= i < |chunks| ==> ValidChunk(chunks[i], maxSum)
  }

  /** Chunk i did not fit into the one before it. */
  predicate NoRoom(chunks: seq<seq<int>>, i: int, maxSum: int)
    requires 0 < i < |chunks|
  {
    chunks[i] != [] ==> Sum(chunks[i-1]) + chunks[i][0] > maxSum
  }

  /** No chunk had room for the number that opens the next one. */
  ghost predicate Tight(chunks: seq<seq<int>>, maxSum: int)
  {
    forall i :: 0 < i < |chunks| ==> NoRoom(chunks, i, maxSum)
  }

  lemma {:induction false} SumAppend(a: seq<int>, b: seq<int>)
    ensures Sum(a + b) == Sum(a) + Sum(b)
  {
    if a == [] {
      assert a + b == b;
    } else {
      assert (a + b)[1..] == a[1..] + b;
      SumAppend(a[1..], b);
    }
  }

  lemma {:induction false} ConcatAppend<T>(xs: seq<seq<T>>, ys: seq<seq<T>>)
    ensures Concat(xs + ys) == Concat(xs) + Concat(ys)
  {
    if xs == [] {
      assert xs + ys == ys;
    } else {
      assert (xs + ys)[1..] == xs[1..] + ys;
      ConcatAppend(xs[1..], ys);
    }
  }

  lemma {:induction false} ConcatSnoc<T>(xs: seq<seq<T>>, y: seq<T>)
    ensures Concat(xs + [y]) == Concat(xs) + y
  {
    ConcatAppend(xs, [y]);
    assert Concat([y]) == y + Concat<T>([]);
  }

  lemma {:induction false} SumNonNegative(s: seq<int>)
    requires NonNegative(s)
    ensures Sum(s) >= 0
  {
    if s != [] {
      SumNonNegative(s[1..]);
    }
  }

  /** What the scan has built after reading a prefix: closed chunks and the open one. */
  ghost predicate Scanned(closed: seq<seq<int>>, open: seq<int>, prefix: seq<int>, maxSum: int)
  {
    && Concat(closed) + open == prefix
    && (forall k :: 0 <= k < |closed| ==> ValidChunk(closed[k], maxSum))
    && Tight(closed, maxSum)
    && (if prefix == [] then closed == [] else ValidChunk(open, maxSum))
    && (closed != [] ==> open != [] && Sum(closed[|closed|-1]) + open[0] > maxSum)
  }

  lemma {:induction false} ScanClose(closed: seq<seq<int>>, open: seq<int>, prefix: seq<int>, maxSum: int, num: int)
    requires Scanned(closed, open, prefix, maxSum) && open != []
    requires Sum(open) + num > maxSum
    ensures Scanned(closed + [open], [num], prefix + [num], maxSum)
  {
    ConcatSnoc(closed, open);
    var c := closed + [open];
    forall i | 0 < i < |c|
      ensures NoRoom(c, i, maxSum)
    {
      if i < |closed| {
        assert NoRoom(closed, i, maxSum);
      }
    }
  }

  lemma {:induction false} ScanExtend(closed: seq<seq<int>>, open: seq<int>, prefix: seq<int>, maxSum: int, num: int)
    requires Scanned(closed, open, prefix, maxSum)
    requires Sum(open) + num <= maxSum
    ensures Scanned(closed, open + [num], prefix + [num], maxSum)
    ensures Sum(open + [num]) == Sum(open) + num
  {
    SumAppend(open, [num]);
    assert Concat(closed) + (open + [num]) == prefix + [num];
  }

  lemma {:induction false} ScanFirst(closed: seq<seq<int>>, prefix: seq<int>, maxSum: int, num: int)
    requires Scanned(closed, [], prefix, maxSum)
    ensures closed == [] && Scanned([], [num], prefix + [num], maxSum)
  {
  }

  lemma {:induction false} ScanDone(closed: seq<seq<int>>, open: seq<int>, nums: seq<int>, maxSum: int)
    requires Scanned(closed, open, nums, maxSum)
    ensures open != [] ==> Partition(closed + [open], nums, maxSum) && Tight(closed + [open], maxSum)
    ensures open == [] ==> Partition(closed, nums, maxSum) && Tight(closed, maxSum)
  {
    if open != [] {
      ScanClose(closed, open, nums, maxSum, maxSum + 1 - Sum(open));
      ConcatSnoc(closed, open);
    }
  }

  /** What reading one more number makes of the scan. */
  lemma {:induction false} ScanStep(closed: seq<seq<int>>, open: seq<int>, nums: seq<int>, i: nat, maxSum: int)
    requires i < |nums| && Scanned(closed, open, nums[..i], maxSum)
    ensures var num, prefix := nums[i], nums[..i+1];
      if Sum(open) + num <= maxSum then
        Scanned(closed, open + [num], prefix, maxSum) && Sum(open + [num]) == Sum(open) + num
      else Scanned(if open == [] then closed else closed + [open], [num], prefix, maxSum) && Sum([num]) == num
  {
    var num, prefix := nums[i], nums[..i];
    PrefixStep(nums, i);
    if Sum(open) + num <= maxSum {
      ScanExtend(closed, open, prefix, maxSum, num);
    } else if open != [] {
      ScanClose(closed, open, prefix, maxSum, num);
    } else {
      ScanFirst(closed, prefix, maxSum, num);
    }
  }

  method ChunkByMaxSum(nums: seq<int>, maxSum: int) returns (result: seq<seq<int>>)
    ensures maxSum <= 0 ==> result == []
    ensures maxSum > 0 ==> Partition(result, nums, maxSum) && Tight(result, maxSum)
  {
    result := [];
    if maxSum <= 0 {
      return;
    }
    var currentChunk: seq<int>, currentSum := [], 0;
    for i := 0 to |nums|
      invariant Scanned(result, currentChunk, nums[..i], maxSum)
      invariant currentSum == Sum(currentChunk)
    {
      var num := nums[i];
      ScanStep(result, currentChunk, nums, i, maxSum);
      if currentSum + num > maxSum {
        if |currentChunk| > 0 {
          result := result + [currentChunk];
        }
        currentChunk := [num];
        currentSum := num;
      } else {
        currentChunk := currentChunk + [num];
        currentSum := currentSum + num;
      }
    }
    PrefixAll(nums);
    ScanDone(result, currentChunk, nums, maxSum);
    if |currentChunk| > 0 {
      result := result + [currentChunk];
    }
  }

  lemma {:induction false} NonNegativeSlice(s: seq<int>, lo: nat, hi: nat)
    requires NonNegative(s) && lo <= hi <= |s|
    ensures NonNegative(s[lo..hi]) && Sum(s[lo..hi]) >= 0
  {
    SumNonNegative(s[lo..hi]);
  }

  lemma {:induction false} SumParts(c: seq<int>, k: nat, n: nat)
    requires k <= n < |c|
    ensures Sum(c) == Sum(c[0..k]) + Sum(c[k..n]) + c[n] + Sum(c[n+1..|c|])
  {
    assert c == c[0..k] + c[k..];
    SumAppend(c[0..k], c[k..]);
    assert c[k..] == c[k..n] + c[n..];
    SumAppend(c[k..n], c[n..]);
    assert c[n..][1..] == c[n+1..|c|];
  }

  /** A valid chunk that starts no later than g[0] ends no later than g[0]. */
  lemma {:induction false} FirstChunkFits(c: seq<int>, lead: seq<int>, g: seq<seq<int>>, maxSum: int)
    requires NonNegative(c) && ValidChunk(c, maxSum)
    requires g != [] && g[0] != [] && (|g| > 1 ==> g[1] != []) && Tight(g, maxSum)
    requires c <= lead + Concat(g)
    ensures |c| <= |lead| + |g[0]|
  {
    var n := |lead| + |g[0]|;
    if |c| > n {
      assert Concat(g) == g[0] + Concat(g[1..]);
      assert |g| > 1 && NoRoom(g, 1, maxSum);
      assert Concat(g[1..]) == g[1] + Concat(g[1..][1..]);
      assert c[n] == (lead + Concat(g))[n] == g[1][0];
      assert c[|lead|..n] == g[0];
      SumParts(c, |lead|, n);
      NonNegativeSlice(c, 0, |lead|);
      NonNegativeSlice(c, n + 1, |c|);
      assert false;
    }
  }

  lemma {:induction false} TightRest(g: seq<seq<int>>, n: nat, maxSum: int)
    requires Tight(g, maxSum) && n <= |g|
    ensures Tight(g[n..], maxSum)
  {
    forall i | 0 < i < |g[n..]| ensures NoRoom(g[n..], i, maxSum) {
      assert NoRoom(g, n + i, maxSum);
    }
  }

  /** Greedy stays ahead: a valid cut of more numbers never needs fewer chunks. */
  lemma {:induction false} StaysAhead(p: seq<seq<int>>, lead: seq<int>, g: seq<seq<int>>, maxSum: int)
    requires NonNegative(Concat(p))
    requires Concat(p) == lead + Concat(g)
    requires forall i :: 0 <= i < |p| ==> ValidChunk(p[i], maxSum)
    requires forall i :: 0 <= i < |g| ==> ValidChunk(g[i], maxSum)
    requires Tight(g, maxSum)
    ensures |g| <= |p|
    decreases |p|
  {
    if g != [] {
      assert ValidChunk(g[0], maxSum) && (|g| > 1 ==> ValidChunk(g[1], maxSum));
      assert Concat(g) == g[0] + Concat(g[1..]);
      assert p != [];
      assert ValidChunk(p[0], maxSum);
      var whole, k := Concat(p), |p[0]|;
      assert whole == p[0] + Concat(p[1..]);
      assert p[0] == whole[..k];
      FirstChunkFits(p[0], lead, g, maxSum);
      NonNegativeSlice(whole, k, |whole|);
      assert whole[k..|whole|] == Concat(p[1..]) == (lead + g[0])[k..] + Concat(g[1..]);
      TightRest(g, 1, maxSum);
      StaysAhead(p[1..], (lead + g[0])[k..], g[1..], maxSum);
    }
  }

  /** Optimality: every other valid cut of the same numbers has at least as many chunks. */
  lemma {:induction false} Optimal(g: seq<seq<int>>, p: seq<seq<int>>, nums: seq<int>, maxSum: int)
    requires NonNegative(nums)
    requires Partition(g, nums, maxSum) && Tight(g, maxSum)
    requires Partition(p, nums, maxSum)
    ensures |g| <= |p|
  {
    StaysAhead(p, [], g, maxSum);
  }

  lemma {:induction false} ChunkNonNegative(g: seq<seq<int>>, i: nat)
    requires NonNegative(Concat(g)) && i < |g|
    ensures NonNegative(g[i])
  {
    assert Concat(g) == g[0] + Concat(g[1..]);
    if i == 0 {
      assert forall k :: 0 <= k < |g[0]| ==> g[0][k] == Concat(g)[k];
    } else {
      assert forall k :: 0 <= k < |Concat(g[1..])| ==> Concat(g[1..])[k] == Concat(g)[|g[0]| + k];
      ChunkNonNegative(g[1..], i - 1);
      assert g[1..][i-1] == g[i];
    }
  }

  /** Two neighbouring chunks never fit together. */
  lemma {:induction false} NeighboursOverflow(g: seq<seq<int>>, nums: seq<int>, maxSum: int, i: nat)
    requires NonNegative(nums)
    requires Partition(g, nums, maxSum) && Tight(g, maxSum)
    requires i + 1 < |g|
    ensures Sum(g[i]) + Sum(g[i+1]) > maxSum
  {
    ChunkNonNegative(g, i + 1);
    var c := g[i+1];
    assert ValidChunk(c, maxSum) && NoRoom(g, i + 1, maxSum);
    assert NonNegative(c[1..]);
    SumNonNegative(c[1..]);
  }

  /** Hence the total bounds the number of chunks. */
  lemma {:induction false} CountBound(g: seq<seq<int>>, nums: seq<int>, maxSum: int)
    requires maxSum > 0 && NonNegative(nums)
    requires Partition(g, nums, maxSum) && Tight(g, maxSum)
    ensures |g| / 2 * maxSum <= Sum(nums)
    ensures |g| >= 2 ==> |g| / 2 * maxSum < Sum(nums)
    decreases |g|
  {
    SumNonNegative(nums);
    if |g| >= 2 {
      NeighboursOverflow(g, nums, maxSum, 0);
      AfterTwo(g, nums, maxSum);
      CountBound(g[2..], Concat(g[2..]), maxSum);
      assert |g| / 2 == |g[2..]| / 2 + 1;
      assert (|g[2..]| / 2 + 1) * maxSum == |g[2..]| / 2 * maxSum + maxSum;
    }
  }

  /** What is left of a cut after its first two chunks. */
  lemma {:induction false} AfterTwo(g: seq<seq<int>>, nums: seq<int>, maxSum: int)
    requires NonNegative(nums) && Partition(g, nums, maxSum) && Tight(g, maxSum) && |g| >= 2
    ensures var tail := Concat(g[2..]);
      && NonNegative(tail) && Partition(g[2..], tail, maxSum) && Tight(g[2..], maxSum)
      && Sum(nums) == Sum(g[0]) + Sum(g[1]) + Sum(tail)
  {
    var tail := Concat(g[2..]);
    assert g[1..][1..] == g[2..];
    assert Concat(g) == g[0] + Concat(g[1..]) && Concat(g[1..]) == g[1] + tail;
    SumAppend(g[0], g[1] + tail);
    SumAppend(g[1], tail);
    assert forall k :: 0 <= k < |tail| ==> tail[k] == nums[|g[0]| + |g[1]| + k];
    TightRest(g, 2, maxSum);
  }

  lemma {:induction false} MemberAtMostSum(s: seq<int>, i: nat)
    requires NonNegative(s) && i < |s|
    ensures s[i] <= Sum(s)
  {
    SumNonNegative(s[1..]);
    if i > 0 {
      MemberAtMostSum(s[1..], i - 1);
    }
  }

  lemma {:induction false} MemberOfChunk<T>(g: seq<seq<T>>, i: nat) returns (k: nat, j: nat)
    requires i < |Concat(g)|
    ensures k < |g| && j < |g[k]| && g[k][j] == Concat(g)[i]
  {
    if i < |g[0]| {
      k, j := 0, i;
    } else {
      k, j := MemberOfChunk(g[1..], i - |g[0]|);
      k := k + 1;
    }
  }

  lemma {:induction false} ChunkInConcat<T>(g: seq<seq<T>>, k: nat, j: nat) returns (i: nat)
    requires k < |g| && j < |g[k]|
    ensures i < |Concat(g)| && Concat(g)[i] == g[k][j]
  {
    if k == 0 {
      i := j;
    } else {
      i := ChunkInConcat(g[1..], k - 1, j);
      i := |g[0]| + i;
    }
  }

  lemma {:induction false} SmallNumbersFit(g: seq<seq<int>>, nums: seq<int>, maxSum: int, k: nat)
    requires Partition(g, nums, maxSum) && (forall i :: 0 <= i < |nums| ==> nums[i] <= maxSum)
    requires k < |g|
    ensures Sum(g[k]) <= maxSum
  {
    assert ValidChunk(g[k], maxSum);
    if |g[k]| == 1 {
      var i := ChunkInConcat(g, k, 0);
    }
  }

  /** No chunk is over the maximum exactly when no number is. */
  lemma {:induction false} WithinMaximum(g: seq<seq<int>>, nums: seq<int>, maxSum: int)
    requires NonNegative(nums) && Partition(g, nums, maxSum)
    ensures (forall k :: 0 <= k < |g| ==> Sum(g[k]) <= maxSum) <==> (forall i :: 0 <= i < |nums| ==> nums[i] <= maxSum)
  {
    if forall i :: 0 <= i < |nums| ==> nums[i] <= maxSum {
      forall k | 0 <= k < |g| ensures Sum(g[k]) <= maxSum {
        SmallNumbersFit(g, nums, maxSum, k);
      }
    } else {
      var i :| 0 <= i < |nums| && nums[i] > maxSum;
      var k, j := MemberOfChunk(g, i);
      ChunkNonNegative(g, k);
      MemberAtMostSum(g[k], j);
    }
  }

  lemma {:induction false} AtLeastAsMany<T>(xs: seq<seq<T>>)
    requires forall k :: 0 <= k < |xs| ==> xs[k] != []
    ensures |Concat(xs)| >= |xs|
  {
    if xs != [] {
      AtLeastAsMany(xs[1..]);
    }
  }

  /** A number over the maximum is a chunk over the maximum. */
  lemma {:induction false} LargeNumberAlone(g: seq<seq<int>>)
    requires Partition(g, [9], 5)
    ensures g == [[9]] && Sum(g[0]) == 9
  {
    assert forall k :: 0 <= k < |g| ==> ValidChunk(g[k], 5);
    AtLeastAsMany(g);
    assert Concat(g) == g[0] + Concat(g[1..]) && g[1..] == [];
    assert g[0] == [9];
    assert Sum(g[0]) == 9 + Sum(g[0][1..]);
  }
}
