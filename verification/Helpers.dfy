/** Comparison and counting of lists (pkg/collector/helper.go). */
module Helpers {
  import opened Seqs

  function Count<T(==)>(m: map<T, nat>, x: T): nat
  {
    if x in m then m[x] else 0
  }

  /** The map holds exactly these multiplicities, and no zero entries. */
  ghost predicate Counts<T(!new)>(m: map<T, nat>, of: multiset<T>)
  {
    forall x {:trigger of[x]} {:trigger x in m} :: (x in m <==> of[x] > 0) && (x in m ==> m[x] == of[x])
  }

  lemma {:induction false} MultisetStep<T>(s: seq<T>, i: nat)
    requires i < |s|
    ensures multiset(s[..i+1]) == multiset(s[..i]) + multiset{s[i]}
    ensures multiset(s[..i+1]) <= multiset(s)
  {
    PrefixStep(s, i);
    assert s == s[..i+1] + s[i+1..];
  }

  lemma {:induction false} CountsAdd<T(!new)>(m: map<T, nat>, s: seq<T>, i: nat)
    requires i < |s| && Counts(m, multiset(s[..i]))
    ensures Counts(m[s[i] := Count(m, s[i]) + 1], multiset(s[..i+1]))
  {
    MultisetStep(s, i);
  }

  /** Taking one y out of the counted elements. */
  lemma {:induction false} CountsTake<T(!new)>(m: map<T, nat>, xs: multiset<T>, ys: seq<T>, i: nat)
    requires i < |ys| && multiset(ys[..i]) <= xs && Counts(m, xs - multiset(ys[..i]))
    ensures var y := ys[i];
      if y in m then
        && multiset(ys[..i+1]) <= xs
        && Counts(if m[y] == 1 then m - {y} else m[y := m[y] - 1], xs - multiset(ys[..i+1]))
      else xs != multiset(ys)
  {
    var y, rest := ys[i], xs - multiset(ys[..i]);
    MultisetStep(ys, i);
    assert rest[y] == xs[y] - multiset(ys[..i])[y];
    assert xs - multiset(ys[..i+1]) == rest - multiset{y};
    if y !in m {
      assert multiset(ys)[y] >= multiset(ys[..i+1])[y] > xs[y];
    }
  }

  lemma {:induction false} NothingLeft<T(!new)>(m: map<T, nat>, xs: multiset<T>, ys: multiset<T>)
    requires ys <= xs && Counts(m, xs - ys)
    ensures |m| == 0 <==> xs == ys
  {
    assert xs == ys + (xs - ys);
    if |m| == 0 {
      assert forall x :: x !in m;
      assert xs - ys == multiset{};
    } else {
      var x :| x in m;
      assert (xs - ys)[x] > 0;
    }
  }

  /** elementCounts: how often each value occurs. */
  method ElementCounts<T(==, !new)>(s: seq<T>) returns (counts: map<T, nat>)
    ensures Counts(counts, multiset(s))
  {
    counts := map[];
    for i := 0 to |s|
      invariant Counts(counts, multiset(s[..i]))
    {
      CountsAdd(counts, s, i);
      counts := counts[s[i] := Count(counts, s[i]) + 1];
    }
    PrefixAll(s);
  }

  /** areEqual holds exactly when the two slices have the same elements, as often, in any order. */
  method AreEqual<T(==, !new)>(xs: seq<T>, ys: seq<T>) returns (equal: bool)
    ensures equal <==> multiset(xs) == multiset(ys)
  {
    if |xs| != |ys| {
      assert |multiset(xs)| == |xs| && |multiset(ys)| == |ys|;
      return false;
    }
    if |xs| == 0 {
      return true;
    }
    var diff: map<T, nat> := map[];
    for i := 0 to |xs|
      invariant Counts(diff, multiset(xs[..i]))
    {
      CountsAdd(diff, xs, i);
      diff := diff[xs[i] := Count(diff, xs[i]) + 1];
    }
    PrefixAll(xs);
    for i := 0 to |ys|
      invariant multiset(ys[..i]) <= multiset(xs)
      invariant Counts(diff, multiset(xs) - multiset(ys[..i]))
    {
      CountsTake(diff, multiset(xs), ys, i);
      if ys[i] !in diff {
        return false;
      }
      if diff[ys[i]] == 1 {
        diff := diff - {ys[i]};
        continue;
      }
      diff := diff[ys[i] := diff[ys[i]] - 1];
    }
    PrefixAll(ys);
    NothingLeft(diff, multiset(xs), multiset(ys));
    equal := |diff| == 0;
  }
}
