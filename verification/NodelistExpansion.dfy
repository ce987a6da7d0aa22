/**
 * What a printed host expands to: replacing a group in its text is putting a number into the host, and the loops over
 * ranges and numbers give what the numbers of the group give (internal/common/helpers.go).
 */
module NodelistExpansion {
  import opened Counters
  import opened NodelistHosts
  import opened Nodelists
  import opened Options
  import opened Seqs
  import opened Texts

  /* ---- A number in the place of a group, in the text ---- */

  /** The text of a bracket group without brackets inside. */
  predicate Bracketed(m: string)
  {
    |m| >= 2 && m[0] == '[' && m[|m|-1] == ']' && forall i :: 0 < i < |m| - 1 ==> m[i] != '[' && m[i] != ']'
  }

  lemma {:induction false} GroupBracketed(ranges: seq<Range>)
    requires GoodRanges(ranges)
    ensures Bracketed(GroupText(ranges))
  {
    var body := Join(RenderRanges(ranges), ',');
    BodyPlain(ranges);
    var m := GroupText(ranges);
    assert forall i :: 0 < i < |m| - 1 ==> m[i] == body[i-1];
  }

  lemma {:induction false} ReplaceSkip(c: char, s: string, m: string, d: string)
    requires m != "" && m[0] == '[' && c != '['
    ensures ReplaceAll([c] + s, m, d) == [c] + ReplaceAll(s, m, d)
  {
    var t := [c] + s;
    assert t[0] != m[0] && t[1..] == s;
  }

  lemma {:induction false} ReplaceAfter(a: string, s: string, m: string, d: string)
    requires m != "" && m[0] == '[' && '[' !in a
    ensures ReplaceAll(a + s, m, d) == a + ReplaceAll(s, m, d)
  {
    if a == "" {
      assert a + s == s;
    } else {
      assert a + s == [a[0]] + (a[1..] + s);
      ReplaceAfter(a[1..], s, m, d);
      ReplaceSkip(a[0], a[1..] + s, m, d);
      assert [a[0]] + (a[1..] + ReplaceAll(s, m, d)) == a + ReplaceAll(s, m, d);
    }
  }

  lemma {:induction false} ReplaceSame(m: string, s: string, d: string)
    requires m != ""
    ensures ReplaceAll(m + s, m, d) == d + ReplaceAll(s, m, d)
  {
    assert (m + s)[|m|..] == s;
  }

  /** A group is no prefix of a text that starts with another group. */
  lemma {:induction false} OtherGroup(g: string, s: string, m: string)
    requires Bracketed(g) && Bracketed(m) && m <= g + s
    ensures m == g
  {
    var t := g + s;
    assert t[|m|-1] == m[|m|-1] && t[|g|-1] == g[|g|-1];
    assert forall i :: 0 <= i < |m| ==> m[i] == t[i];
    assert |m| == |g|;
  }

  lemma {:induction false} ReplaceOther(g: string, s: string, m: string, d: string)
    requires Bracketed(g) && Bracketed(m) && g != m
    ensures ReplaceAll(g + s, m, d) == g + ReplaceAll(s, m, d)
  {
    var t, tail := g + s, g[1..];
    if m <= t {
      OtherGroup(g, s, m);
    }
    if |t| >= |m| {
      assert t[1..] == tail + s;
      assert '[' !in tail;
      ReplaceAfter(tail, s, m, d);
      assert [g[0]] + (tail + ReplaceAll(s, m, d)) == g + ReplaceAll(s, m, d);
    }
  }

  lemma {:induction false} SameText(prefix: string, m: string, rest: string, after: string, d: string)
    requires Bracketed(m) && '[' !in prefix && ReplaceAll(rest, m, d) == after
    ensures ReplaceAll(prefix + m + rest, m, d) == prefix + d + after
  {
    assert prefix + m + rest == prefix + (m + rest);
    ReplaceAfter(prefix, m + rest, m, d);
    ReplaceSame(m, rest, d);
    assert prefix + (d + after) == prefix + d + after;
  }

  lemma {:induction false} OtherText(prefix: string, g: string, m: string, rest: string, after: string, d: string)
    requires Bracketed(m) && Bracketed(g) && g != m && '[' !in prefix && ReplaceAll(rest, m, d) == after
    ensures ReplaceAll(prefix + g + rest, m, d) == prefix + g + after
  {
    assert prefix + g + rest == prefix + (g + rest);
    ReplaceAfter(prefix, g + rest, m, d);
    ReplaceOther(g, rest, m, d);
    assert prefix + (g + after) == prefix + g + after;
  }

  /** Replacing in the text is replacing in the host. */
  lemma {:induction false} SubstIs(h: Host, m: string, d: string)
    requires GoodHost(h) && Bracketed(m)
    ensures ReplaceAll(Render(h), m, d) == Render(Subst(h, m, d))
  {
    if h.Plain? {
      ReplaceAfter(h.name, "", m, d);
      assert h.name + "" == h.name;
    } else {
      SubstIs(h.rest, m, d);
      GroupBracketed(h.ranges);
      if GroupText(h.ranges) == m {
        SameText(h.prefix, m, Render(h.rest), Render(Subst(h.rest, m, d)), d);
        RenderBefore(h.prefix + d, Subst(h.rest, m, d));
      } else {
        OtherText(h.prefix, GroupText(h.ranges), m, Render(h.rest), Render(Subst(h.rest, m, d)), d);
      }
    }
  }

  /* ---- The first group of a text ---- */

  lemma {:induction false} CollectOne(x: Names)
    ensures Collect([x]) == x
  {
    assert [x][..0] == [];
    if x.Some? {
      assert [] + x.value == x.value;
    }
  }

  /** Text without a bar is one node. */
  lemma {:induction false} ExpandsAsOne(s: string)
    requires '|' !in s
    ensures Expand(s) == ExpandPiece(s, CountOpen(s))
  {
    SplitPlain(s, '|');
    SplitCount(s, '|');
    var n := CountOpen(s);
    assert PieceResults([s], n) == [ExpandPiece(s, n)];
    CollectOne(ExpandPiece(s, n));
  }

  lemma {:induction false} CloseAt(s: string, j: nat, e: nat)
    requires j <= e < |s| && s[e] == ']' && forall i :: j <= i < e ==> s[i] != ']' && s[i] != '\n'
    ensures CloseFrom(s, j) == Some(e)
    decreases e - j
  {
    if j < e {
      CloseAt(s, j + 1, e);
    }
  }

  lemma {:induction false} GroupAt(s: string, i: nat, b: nat, e: nat)
    requires i <= b < e < |s| && s[b] == '[' && s[e] == ']'
    requires forall k :: i <= k < b ==> s[k] != '['
    requires forall k :: b < k < e ==> s[k] != ']' && s[k] != '\n'
    ensures FindGroup(s, i) == Some((b, e))
    decreases b - i
  {
    if i < b {
      GroupAt(s, i + 1, b, e);
    } else {
      CloseAt(s, b + 1, e);
    }
  }

  lemma {:induction false} RangedAt(prefix: string, body: string, suffix: string)
    requires '[' !in prefix && ']' !in body && '\n' !in body
    ensures var group := ['['] + body + [']'];
      var s := prefix + group + suffix;
      && FindGroup(s, 0) == Some((|prefix|, |prefix| + |body| + 1))
      && s[|prefix|..|prefix| + |body| + 2] == group && s[|prefix| + 1..|prefix| + |body| + 1] == body
      && OccursAt(group, s, |prefix|)
  {
    var group := ['['] + body + [']'];
    var s := prefix + group + suffix;
    var b, e := |prefix|, |prefix| + |body| + 1;
    assert s[b..e+1] == group;
    assert group[1..|body|+1] == body;
    assert s[b+1..e] == body;
    assert s[b] == group[0] && s[e] == group[|body|+1];
    forall k | b < k < e ensures s[k] != ']' && s[k] != '\n' {
      assert s[k] == body[k-b-1];
    }
    GroupAt(s, 0, b, e);
  }

  /** The first group of a text is the one that is expanded. */
  lemma {:induction false} GroupExpands(piece: string, prefix: string, body: string, suffix: string, n: nat)
    requires '[' !in prefix && ']' !in body && '\n' !in body && piece == prefix + (['['] + body + [']']) + suffix
    requires CountOpen(piece) <= n
    ensures GroupOf(['['] + body + [']'], piece, n)
    ensures ExpandPiece(piece, n) == Collect(RangeResults(piece, ['['] + body + [']'], Split(body, ','), n))
  {
    RangedAt(prefix, body, suffix);
    assert piece[|prefix|] == '[';
    PieceGroup(piece, |prefix|, |prefix| + |body| + 1, n);
  }

  /** The first group of a host is the one that is expanded. */
  lemma {:induction false} FirstGroup(h: Host, n: nat)
    requires GoodHost(h) && h.Ranged? && CountOpen(Render(h)) <= n
    ensures GroupOf(GroupText(h.ranges), Render(h), n)
    ensures ExpandPiece(Render(h), n)
      == Collect(RangeResults(Render(h), GroupText(h.ranges), RenderRanges(h.ranges), n))
  {
    var rs := RenderRanges(h.ranges);
    BodyPlain(h.ranges);
    RangesPlain(h.ranges);
    GroupExpands(Render(h), h.prefix, Join(rs, ','), Render(h.rest), n);
    SplitJoin(rs, ',');
  }

  /* ---- Ranges ---- */

  /** A number of digits, unless it is too large. */
  function Parsable(v: nat): Option<nat>
  {
    if v <= MAX_INT then Some(v) else None
  }

  lemma {:induction false} AtoiDigits(s: string)
    requires GoodNumber(s)
    ensures Atoi(s) == Parsable(Value(s))
  {
    DigitsPlain(s);
    assert s[0] != '+';
  }

  lemma {:induction false} RangeParses(r: Range)
    requires GoodRange(r)
    ensures var parts := Split(RenderRange(r), '-');
      && parts[0] == r.lo
      && Atoi(parts[0]) == Parsable(First(r)) && Atoi(if |parts| == 1 then parts[0] else parts[1]) == Parsable(Last(r))
  {
    DigitsPlain(r.lo);
    AtoiDigits(r.lo);
    if r.hi.None? {
      SplitPlain(r.lo, '-');
    } else {
      DigitsPlain(r.hi.value);
      AtoiDigits(r.hi.value);
      SplitPlain(r.hi.value, '-');
      SplitCons(r.lo, r.hi.value, '-');
    }
  }

  /** A range of digits, from its bounds. */
  lemma {:induction false} RangeExpands(piece: string, group: string, range: string, width: nat, start: nat, end: nat,
      n: nat)
    requires GroupOf(group, piece, n)
    requires var parts := Split(range, '-');
      && |parts[0]| == width && Atoi(parts[0]) == Parsable(start)
      && Atoi(if |parts| == 1 then parts[0] else parts[1]) == Parsable(end)
    ensures ExpandRange(piece, group, range, n) ==
      if start > MAX_INT || end > MAX_INT then Some([])
      else if start <= end == MAX_INT then None
      else Collect(RoundResults(piece, group, width, start, if start > end then 0 else end + 1 - start, n))
  {
    if start <= MAX_INT && end <= MAX_INT {
      LeavesExactly(start, end);
      if start > end || end < MAX_INT {
        RoundsAre(start, end);
      }
    }
  }

  /** What these numbers in the place of a group expand to. */
  ghost function ExpandEach(piece: string, group: string, ds: seq<string>): Names
    requires group != ""
  {
    if ds == [] then Some([])
    else Cat(ExpandEach(piece, group, ds[..|ds|-1]), Expand(ReplaceAll(piece, group, ds[|ds|-1])))
  }

  lemma {:induction false} CatAssoc(a: Names, b: Names, c: Names)
    ensures Cat(Cat(a, b), c) == Cat(a, Cat(b, c)) && Cat(a, Some([])) == a
  {
    if a.Some? && b.Some? && c.Some? {
      assert a.value + b.value + c.value == a.value + (b.value + c.value);
    }
    if a.Some? {
      assert a.value + [] == a.value;
    }
  }

  lemma {:induction false} EachNext(piece: string, group: string, ds: seq<string>, d: string)
    requires group != ""
    ensures ExpandEach(piece, group, ds + [d]) == Cat(ExpandEach(piece, group, ds), Expand(ReplaceAll(piece, group, d)))
  {
    assert (ds + [d])[..|ds|] == ds;
  }

  lemma {:induction false} EachAppendNext(piece: string, group: string, a: seq<string>, b: seq<string>, d: string)
    requires group != ""
    requires ExpandEach(piece, group, a + b) == Cat(ExpandEach(piece, group, a), ExpandEach(piece, group, b))
    ensures ExpandEach(piece, group, a + (b + [d]))
      == Cat(ExpandEach(piece, group, a), ExpandEach(piece, group, b + [d]))
  {
    AppendAssoc(a, b, [d]);
    EachNext(piece, group, a + b, d);
    EachNext(piece, group, b, d);
    CatAssoc(ExpandEach(piece, group, a), ExpandEach(piece, group, b), Expand(ReplaceAll(piece, group, d)));
  }

  lemma {:induction false} EachAppend(piece: string, group: string, a: seq<string>, b: seq<string>)
    requires group != ""
    ensures ExpandEach(piece, group, a + b) == Cat(ExpandEach(piece, group, a), ExpandEach(piece, group, b))
  {
    if b == [] {
      assert a + b == a;
      CatAssoc(ExpandEach(piece, group, a), None, None);
    } else {
      var front, d := b[..|b|-1], b[|b|-1];
      EachAppend(piece, group, a, front);
      EachAppendNext(piece, group, a, front, d);
      assert b == front + [d];
    }
  }

  lemma {:induction false} TextsNext(width: nat, start: nat, i: nat)
    requires start <= i
    ensures NumberTexts(width, start, i + 1) == NumberTexts(width, start, i) + [Pad(width, i)]
  {
    assert start + (i - start) == i;
  }

  lemma {:induction false} NextNumber(piece: string, group: string, width: nat, start: nat, i: nat)
    requires group != "" && start <= i
    ensures ExpandEach(piece, group, NumberTexts(width, start, i + 1)) ==
      Cat(ExpandEach(piece, group, NumberTexts(width, start, i)), Expand(ReplaceAll(piece, group, Pad(width, i))))
  {
    TextsNext(width, start, i);
    EachNext(piece, group, NumberTexts(width, start, i), Pad(width, i));
  }

  lemma {:induction false} RoundsSnoc(piece: string, group: string, width: nat, start: nat, k: nat, n: nat)
    requires GroupOf(group, piece, n) && start + k <= MAX_INT
    ensures Collect(RoundResults(piece, group, width, start, k + 1, n)) ==
      Cat(Collect(RoundResults(piece, group, width, start, k, n)), ExpandNumber(piece, group, width, start + k, n))
  {
    var results := RoundResults(piece, group, width, start, k + 1, n);
    assert results[..k] == RoundResults(piece, group, width, start, k, n);
    CounterIs(start, k);
    assert results[k] == ExpandNumber(piece, group, width, Counter(start, k), n);
  }

  lemma {:induction false} RoundsStep(piece: string, group: string, width: nat, start: nat, k: nat, n: nat)
    requires GroupOf(group, piece, n) && start + k <= MAX_INT
    requires Collect(RoundResults(piece, group, width, start, k, n))
      == ExpandEach(piece, group, NumberTexts(width, start, start + k))
    ensures Collect(RoundResults(piece, group, width, start, k + 1, n))
      == ExpandEach(piece, group, NumberTexts(width, start, start + k + 1))
  {
    RoundsSnoc(piece, group, width, start, k, n);
    NumberExpands(piece, group, width, start + k, n);
    NextNumber(piece, group, width, start, start + k);
  }

  /** The first rounds of the loop over the numbers. */
  lemma {:induction false} RoundsGive(piece: string, group: string, width: nat, start: nat, k: nat, n: nat)
    requires GroupOf(group, piece, n) && start + k <= MAX_INT + 1
    ensures Collect(RoundResults(piece, group, width, start, k, n))
      == ExpandEach(piece, group, NumberTexts(width, start, start + k))
    decreases k
  {
    if k == 0 {
      assert NumberTexts(width, start, start) == [];
    } else {
      RoundsGive(piece, group, width, start, k - 1, n);
      RoundsStep(piece, group, width, start, k - 1, n);
    }
  }

  lemma {:induction false} CountGives(piece: string, group: string, width: nat, start: nat, end: nat, n: nat)
    requires GroupOf(group, piece, n) && start <= MAX_INT && (start > end || end < MAX_INT)
    ensures Collect(RoundResults(piece, group, width, start, if start > end then 0 else end + 1 - start, n))
      == ExpandEach(piece, group, NumberTexts(width, start, end + 1))
  {
    if start <= end {
      RoundsGive(piece, group, width, start, end + 1 - start, n);
    } else {
      RoundsGive(piece, group, width, start, 0, n);
      assert NumberTexts(width, start, end + 1) == [] == NumberTexts(width, start, start);
    }
  }

  lemma {:induction false} RangeCounts(piece: string, group: string, range: string, width: nat, start: nat, end: nat,
      n: nat)
    requires GroupOf(group, piece, n)
    requires var parts := Split(range, '-');
      && |parts[0]| == width && Atoi(parts[0]) == Parsable(start)
      && Atoi(if |parts| == 1 then parts[0] else parts[1]) == Parsable(end)
    ensures ExpandRange(piece, group, range, n) ==
      if start <= end == MAX_INT then None
      else if start > MAX_INT || end > MAX_INT then ExpandEach(piece, group, [])
      else ExpandEach(piece, group, NumberTexts(width, start, end + 1))
  {
    RangeExpands(piece, group, range, width, start, end, n);
    if start <= MAX_INT && end <= MAX_INT && !(start <= end == MAX_INT) {
      CountGives(piece, group, width, start, end, n);
    }
  }

  /** One range gives what its numbers expand to, unless it is endless. */
  lemma {:induction false} RangeGives(piece: string, group: string, r: Range, n: nat)
    requires GroupOf(group, piece, n) && GoodRange(r)
    ensures ExpandRange(piece, group, RenderRange(r), n)
      == if Endless(r) then None else ExpandEach(piece, group, RangeNumbers(r))
  {
    RangeParses(r);
    RangeCounts(piece, group, RenderRange(r), |r.lo|, First(r), Last(r), n);
  }

  lemma {:induction false} RangesSnoc(piece: string, group: string, ranges: seq<Range>, n: nat)
    requires GroupOf(group, piece, n) && ranges != []
    ensures var k := |ranges| - 1;
      Collect(RangeResults(piece, group, RenderRanges(ranges), n)) == Cat(
        Collect(RangeResults(piece, group, RenderRanges(ranges[..k]), n)),
        ExpandRange(piece, group, RenderRange(ranges[k]), n))
  {
    var k, results := |ranges| - 1, RangeResults(piece, group, RenderRanges(ranges), n);
    assert RenderRanges(ranges)[..k] == RenderRanges(ranges[..k]);
    assert results[..k] == RangeResults(piece, group, RenderRanges(ranges[..k]), n);
    assert results[k] == ExpandRange(piece, group, RenderRange(ranges[k]), n);
  }

  lemma {:induction false} EndlessLast(ranges: seq<Range>)
    requires ranges != [] && forall r :: r in ranges ==> GoodRange(r)
    ensures ranges[|ranges|-1] in ranges
    ensures SomeEndless(ranges) <==> SomeEndless(ranges[..|ranges|-1]) || Endless(ranges[|ranges|-1])
  {
    assert ranges == ranges[..|ranges|-1] + [ranges[|ranges|-1]];
  }

  /** Ranges give what their numbers expand to, unless one is endless. */
  lemma {:induction false} RangesGive(piece: string, group: string, ranges: seq<Range>, n: nat)
    requires GroupOf(group, piece, n) && forall r :: r in ranges ==> GoodRange(r)
    ensures Collect(RangeResults(piece, group, RenderRanges(ranges), n))
      == if SomeEndless(ranges) then None else ExpandEach(piece, group, Numbers(ranges))
    decreases |ranges|
  {
    if ranges != [] {
      var k := |ranges| - 1;
      EndlessLast(ranges);
      RangesGive(piece, group, ranges[..k], n);
      RangeGives(piece, group, ranges[k], n);
      RangesSnoc(piece, group, ranges, n);
      EachAppend(piece, group, Numbers(ranges[..k]), RangeNumbers(ranges[k]));
    }
  }

  /* ---- Hosts ---- */

  /** With this number in its first group the host expands to its names, or never. */
  lemma {:induction false} NumberIs(h: Host, d: string)
    requires GoodHost(h) && h.Ranged? && AllDigits(d)
    ensures GoodHost(After(h, d))
    ensures Expand(ReplaceAll(Render(h), GroupText(h.ranges), d))
      == if RestEndless(h) then None else Some(HostNames(After(h, d)))
    decreases |Groups(h)|, 0
  {
    AfterEndless(h, d);
    HostIs(After(h, d), CountOpen(Render(After(h, d))));
    GroupBracketed(h.ranges);
    SubstIs(h, GroupText(h.ranges), d);
    RenderNoBar(After(h, d));
    ExpandsAsOne(Render(After(h, d)));
  }

  lemma {:induction false} NumbersAre(h: Host, ds: seq<string>)
    requires GoodHost(h) && h.Ranged? && AllNumbers(ds)
    ensures ExpandEach(Render(h), GroupText(h.ranges), ds)
      == if RestEndless(h) && ds != [] then None else Some(EachNames(h, ds))
    decreases |Groups(h)|, 1, |ds|
  {
    if ds != [] {
      NumbersAre(h, ds[..|ds|-1]);
      NumberIs(h, ds[|ds|-1]);
    }
  }

  /** A printed host expands to its names, unless it is endless. */
  lemma {:induction false} HostIs(h: Host, n: nat)
    requires GoodHost(h) && CountOpen(Render(h)) <= n
    ensures ExpandPiece(Render(h), n) == if HostEndless(h) then None else Some(HostNames(h))
    decreases |Groups(h)|, 2, 0
  {
    if h.Ranged? {
      FirstGroup(h, n);
      RangesGive(Render(h), GroupText(h.ranges), h.ranges, n);
      NumbersDigits(h.ranges);
      NumbersAre(h, Numbers(h.ranges));
      HostEndlessIs(h);
    }
  }

  lemma {:induction false} PiecesSnoc(hosts: seq<Host>, n: nat)
    requires hosts != [] && forall p :: p in RenderAll(hosts) ==> CountOpen(p) <= n
    ensures var k := |hosts| - 1;
      && (forall p :: p in RenderAll(hosts[..k]) ==> CountOpen(p) <= n) && CountOpen(Render(hosts[k])) <= n
      && Collect(PieceResults(RenderAll(hosts), n))
        == Cat(Collect(PieceResults(RenderAll(hosts[..k]), n)), ExpandPiece(Render(hosts[k]), n))
  {
    var k, all := |hosts| - 1, RenderAll(hosts);
    assert all[..k] == RenderAll(hosts[..k]);
    assert all[k] in all;
    var results := PieceResults(all, n);
    assert results[..k] == PieceResults(all[..k], n);
    assert results[k] == ExpandPiece(Render(hosts[k]), n);
  }

  lemma {:induction false} EndlessHosts(hosts: seq<Host>)
    requires hosts != [] && forall h :: h in hosts ==> GoodHost(h)
    ensures hosts[|hosts|-1] in hosts
    ensures HostsEndless(hosts) <==> HostsEndless(hosts[..|hosts|-1]) || HostEndless(hosts[|hosts|-1])
  {
    assert hosts == hosts[..|hosts|-1] + [hosts[|hosts|-1]];
  }

  lemma {:induction false} HostsAre(hosts: seq<Host>, n: nat)
    requires forall h :: h in hosts ==> GoodHost(h)
    requires forall p :: p in RenderAll(hosts) ==> CountOpen(p) <= n
    ensures Collect(PieceResults(RenderAll(hosts), n)) == if HostsEndless(hosts) then None else Some(AllNames(hosts))
  {
    if hosts != [] {
      var k := |hosts| - 1;
      PiecesSnoc(hosts, n);
      EndlessHosts(hosts);
      HostsAre(hosts[..k], n);
      HostIs(hosts[k], n);
    }
  }
}
