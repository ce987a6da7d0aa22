/**
 * Facts about prefixes, slices and updates of sequences. The loops of the other modules need them once per round, to
 * say how what is done grows by one element.
 */
module Seqs {

  lemma {:induction false} PrefixStep<T>(s: seq<T>, i: nat)
    requires i < |s|
    ensures s[..i+1] == s[..i] + [s[i]]
  {
  }

  lemma {:induction false} PrefixAll<T>(s: seq<T>)
    ensures s[..|s|] == s
  {
  }

  /** Replacing, or keeping, the first element of the second part. */
  lemma {:induction false} UpdateFirst<T>(a: seq<T>, b: seq<T>, i: nat, x: T)
    requires i < |b| && |a| == i
    ensures (a + b[i..])[i := x] == a + [x] + b[i+1..]
    ensures x == b[i] ==> a + b[i..] == a + [x] + b[i+1..]
  {
  }

  lemma {:induction false} AllDone<T>(s: seq<T>, done: seq<T>)
    ensures s[..|s|] == s && done + s[|s|..] == done
  {
  }

  lemma {:induction false} InsertLast<T>(s: seq<T>, i: nat)
    requires i < |s|
    ensures s[..i][..i] + [s[i]] + s[..i][i..] == s[..i+1]
  {
  }

  lemma {:induction false} UpdateNext<T>(s: seq<T>, i: nat, x: T)
    requires i < |s|
    ensures s[i := x][..i+1] == s[..i] + [x]
  {
  }

  lemma {:induction false} AppendAssoc<T>(a: seq<T>, b: seq<T>, c: seq<T>)
    ensures a + (b + c) == a + b + c
  {
  }

  lemma {:induction false} SliceStep<T>(s: seq<T>, lo: nat, hi: nat)
    requires lo <= hi < |s|
    ensures s[lo..hi+1] == s[lo..hi] + [s[hi]] && s[lo..hi+1][..hi-lo] == s[lo..hi]
  {
  }

  /** Two parts of the rest of a sequence. */
  lemma {:induction false} RestSplit<T>(s: seq<T>, a: nat, x: seq<T>, y: seq<T>)
    requires a <= |s| && s[a..] == x + y
    ensures a + |x| <= |s| && s[a..a+|x|] == x && s[a+|x|..] == y
  {
    assert s[a..][..|x|] == x && s[a..][|x|..] == y;
  }
}
