/** The names of printed hosts with several bracket groups, and all combinations (internal/common/helpers.go). */
module NodelistProducts {
  import opened NodelistHosts
  import opened NodelistRoundTrip
  import opened Nodelists
  import opened Options
  import opened Texts

  /* ---- Every combination of numbers ---- */

  function Prefixed(s: string, xs: seq<string>): (r: seq<string>)
    ensures |r| == |xs|
  {
    seq(|xs|, i requires 0 <= i < |xs| => s + xs[i])
  }

  function Combined(prefix: string, ds: seq<string>, xs: seq<string>): seq<string>
  {
    if ds == [] then [] else Combined(prefix, ds[..|ds|-1], xs) + Prefixed(prefix + ds[|ds|-1], xs)
  }

  /** The names with every combination of a number from each group, the last group's running fastest. */
  function Product(h: Host): seq<string>
    requires GoodHost(h)
  {
    if h.Plain? then [h.name] else Combined(h.prefix, Numbers(h.ranges), Product(h.rest))
  }

  function Quoted(xs: seq<string>): (r: seq<string>)
    ensures |r| == |xs|
  {
    seq(|xs|, i requires 0 <= i < |xs| => QuoteMeta(xs[i]))
  }

  lemma {:induction false} PrefixedTwice(s: string, t: string, xs: seq<string>)
    ensures Prefixed(s, Prefixed(t, xs)) == Prefixed(s + t, xs)
  {
    forall i | 0 <= i < |xs|
      ensures s + (t + xs[i]) == s + t + xs[i]
    {
    }
  }

  lemma {:induction false} PrefixedAppend(s: string, xs: seq<string>, ys: seq<string>)
    ensures Prefixed(s, xs + ys) == Prefixed(s, xs) + Prefixed(s, ys)
  {
  }

  lemma {:induction false} CombinedBefore(s: string, prefix: string, ds: seq<string>, xs: seq<string>)
    ensures Combined(s + prefix, ds, xs) == Prefixed(s, Combined(prefix, ds, xs))
  {
    if ds != [] {
      var d := ds[|ds|-1];
      CombinedBefore(s, prefix, ds[..|ds|-1], xs);
      PrefixedAppend(s, Combined(prefix, ds[..|ds|-1], xs), Prefixed(prefix + d, xs));
      PrefixedTwice(s, prefix + d, xs);
      assert s + (prefix + d) == s + prefix + d;
    }
  }

  lemma {:induction false} ProductBefore(s: string, h: Host)
    requires GoodHost(h) && GoodHost(Before(s, h))
    ensures Product(Before(s, h)) == Prefixed(s, Product(h))
  {
    if h.Plain? {
      assert Prefixed(s, [h.name]) == [s + h.name];
    } else {
      CombinedBefore(s, h.prefix, Numbers(h.ranges), Product(h.rest));
    }
  }

  /* ---- A number in the place of equal groups ---- */

  /** All groups with this text are the single number d. */
  predicate OnlyNumber(gs: seq<seq<Range>>, m: string, d: string)
    requires GoodGroups(gs)
  {
    forall g :: g in gs && GroupText(g) == m ==> (assert GoodRanges(g); Numbers(g) == [d])
  }

  lemma {:induction false} ProductSubst(h: Host, m: string, d: string)
    requires GoodHost(h) && AllDigits(d) && GoodGroups(Groups(h)) && OnlyNumber(Groups(h), m, d)
    ensures GoodHost(Subst(h, m, d)) && Product(Subst(h, m, d)) == Product(h)
    decreases h
  {
    SubstGood(h, m, d);
    if h.Ranged? {
      assert Groups(h)[0] in Groups(h);
      assert Groups(h)[1..] == Groups(h.rest);
      ProductSubst(h.rest, m, d);
      if GroupText(h.ranges) == m {
        assert [d][..0] == [];
        assert Combined(h.prefix, [d], Product(h.rest)) == Prefixed(h.prefix + d, Product(h.rest));
        ProductBefore(h.prefix + d, Subst(h.rest, m, d));
      }
    }
  }

  lemma {:induction false} RangeInjective(r: Range, s: Range)
    requires GoodRange(r) && GoodRange(s) && RenderRange(r) == RenderRange(s)
    ensures r == s
  {
    RangeSplits(r);
    RangeSplits(s);
  }

  lemma {:induction false} RangeSplits(r: Range)
    requires GoodRange(r)
    ensures Split(RenderRange(r), '-') == if r.hi.None? then [r.lo] else [r.lo, r.hi.value]
  {
    DigitsPlain(r.lo);
    if r.hi.None? {
      SplitPlain(r.lo, '-');
    } else {
      DigitsPlain(r.hi.value);
      SplitPlain(r.hi.value, '-');
      SplitCons(r.lo, r.hi.value, '-');
    }
  }

  /** The text of a group tells its ranges. */
  lemma {:induction false} TextInjective(a: seq<Range>, b: seq<Range>)
    requires GoodRanges(a) && GoodRanges(b) && GroupText(a) == GroupText(b)
    ensures a == b
  {
    var x, y := Join(RenderRanges(a), ','), Join(RenderRanges(b), ',');
    assert GroupText(a)[1..|x|+1] == x && GroupText(b)[1..|y|+1] == y;
    assert |x| == |y|;
    RangesPlain(a);
    RangesPlain(b);
    SplitJoin(RenderRanges(a), ',');
    SplitJoin(RenderRanges(b), ',');
    assert |a| == |RenderRanges(a)| == |b|;
    forall i | 0 <= i < |a|
      ensures a[i] == b[i]
    {
      assert RenderRanges(a)[i] == RenderRanges(b)[i];
      assert a[i] in a && b[i] in b;
      RangeInjective(a[i], b[i]);
    }
  }

  /* ---- When the names are all combinations ---- */

  predicate SomeEmpty(gs: seq<seq<Range>>)
    requires GoodGroups(gs)
  {
    exists g :: g in gs && Numbers(g) == []
  }

  /** Groups that repeat an earlier one have a single number. */
  predicate RepeatsSingle(gs: seq<seq<Range>>)
    requires GoodGroups(gs)
  {
    forall i, j :: 0 <= i < j < |gs| && gs[i] == gs[j] ==> (assert gs[i] in gs; |Numbers(gs[i])| == 1)
  }

  /** Where an element of the remaining groups was. */
  lemma {:induction false} OthersIn(gs: seq<seq<Range>>, m: string, g: seq<Range>)
    ensures g in Others(gs, m) <==> g in gs && GroupText(g) != m
  {
    if gs != [] {
      OthersIn(gs[1..], m, g);
      assert gs == [gs[0]] + gs[1..];
    }
  }

  /** Of a pair of equal groups both stay or neither does. */
  lemma {:induction false} OthersRepeat(gs: seq<seq<Range>>, m: string)
    requires GoodGroups(gs) && RepeatsSingle(gs)
    ensures GoodGroups(Others(gs, m)) && RepeatsSingle(Others(gs, m))
  {
    OthersGood(gs, m);
    if gs != [] {
      var rest := Others(gs[1..], m);
      TailRepeats(gs);
      OthersRepeat(gs[1..], m);
      if GroupText(gs[0]) != m {
        forall j | 0 <= j < |rest| && rest[j] == gs[0]
          ensures gs[0] in gs && |Numbers(gs[0])| == 1
        {
          OthersIn(gs[1..], m, rest[j]);
          var i :| 0 <= i < |gs[1..]| && gs[1..][i] == rest[j];
          assert gs[i+1] == gs[0];
        }
        ConsRepeats(gs[0], rest);
      }
    }
  }

  lemma {:induction false} TailRepeats(gs: seq<seq<Range>>)
    requires GoodGroups(gs) && RepeatsSingle(gs) && gs != []
    ensures GoodGroups(gs[1..]) && RepeatsSingle(gs[1..])
  {
    forall i, j | 0 <= i < j < |gs[1..]| && gs[1..][i] == gs[1..][j]
      ensures gs[1..][i] in gs && |Numbers(gs[1..][i])| == 1
    {
      assert gs[i+1] == gs[j+1];
    }
  }

  lemma {:induction false} ConsRepeats(g: seq<Range>, gs: seq<seq<Range>>)
    requires GoodRanges(g) && GoodGroups(gs) && RepeatsSingle(gs)
    requires forall j :: 0 <= j < |gs| && gs[j] == g ==> |Numbers(g)| == 1
    ensures GoodGroups([g] + gs) && RepeatsSingle([g] + gs)
  {
    var all := [g] + gs;
    forall i, j | 0 <= i < j < |all| && all[i] == all[j]
      ensures all[i] in all && |Numbers(all[i])| == 1
    {
      if i > 0 {
        assert gs[i-1] == gs[j-1];
      } else {
        assert gs[j-1] == g;
      }
    }
  }

  lemma {:induction false} QuotedAppend(xs: seq<string>, ys: seq<string>)
    ensures Quoted(xs + ys) == Quoted(xs) + Quoted(ys)
  {
  }

  lemma {:induction false} AfterGroups(h: Host, d: string)
    requires GoodHost(h) && h.Ranged? && AllDigits(d)
    ensures GoodHost(After(h, d)) && GoodGroups(Groups(h)) && GoodGroups(Groups(h.rest))
    ensures Groups(After(h, d)) == Others(Groups(h.rest), GroupText(h.ranges)) && GoodGroups(Groups(After(h, d)))
  {
    SubstGood(h, GroupText(h.ranges), d);
    SubstGroups(h, GroupText(h.ranges), d);
    GroupsGood(h);
    GroupsGood(h.rest);
    GroupsGood(After(h, d));
    assert Groups(h)[1..] == Groups(h.rest);
  }

  /** Where the first group is repeated it has no other number. */
  lemma {:induction false} OnlyOne(h: Host, d: string)
    requires GoodHost(h) && h.Ranged? && GoodGroups(Groups(h)) && RepeatsSingle(Groups(h)) && d in Numbers(h.ranges)
    ensures GoodGroups(Groups(h.rest)) && OnlyNumber(Groups(h.rest), GroupText(h.ranges), d)
  {
    GroupsGood(h.rest);
    var gs := Groups(h.rest);
    forall g | g in gs && GroupText(g) == GroupText(h.ranges)
      ensures Numbers(g) == [d]
    {
      TextInjective(g, h.ranges);
      var j :| 0 <= j < |gs| && gs[j] == g;
      assert Groups(h)[0] == Groups(h)[j+1];
    }
  }

  /** With one number put in, the combinations are those of the rest. */
  lemma {:induction false} AfterProduct(h: Host, d: string)
    requires GoodHost(h) && h.Ranged? && AllDigits(d) && GoodGroups(Groups(h)) && RepeatsSingle(Groups(h))
    requires d in Numbers(h.ranges)
    ensures GoodHost(After(h, d)) && Product(After(h, d)) == Prefixed(h.prefix + d, Product(h.rest))
  {
    AfterGroups(h, d);
    var gs, m := Groups(h.rest), GroupText(h.ranges);
    OnlyOne(h, d);
    ProductSubst(h.rest, m, d);
    DigitsPlain(d);
    BeforeGood(h.prefix + d, Subst(h.rest, m, d));
    ProductBefore(h.prefix + d, Subst(h.rest, m, d));
  }

  lemma {:induction false} EachAreCombined(h: Host, ds: seq<string>)
    requires GoodHost(h) && h.Ranged? && AllNumbers(ds) && GoodGroups(Groups(h)) && RepeatsSingle(Groups(h))
    requires forall d :: d in ds ==> d in Numbers(h.ranges)
    ensures EachNames(h, ds) == Quoted(Combined(h.prefix, ds, Product(h.rest)))
    decreases |Groups(h)|, 0, |ds|
  {
    if ds != [] {
      var front, d := ds[..|ds|-1], ds[|ds|-1];
      EachAreCombined(h, front);
      AfterGroups(h, d);
      AfterRepeats(h, d);
      NamesAreProduct(After(h, d));
      AfterProduct(h, d);
      QuotedAppend(Combined(h.prefix, front, Product(h.rest)), Prefixed(h.prefix + d, Product(h.rest)));
    }
  }

  lemma {:induction false} AfterRepeats(h: Host, d: string)
    requires GoodHost(h) && h.Ranged? && AllDigits(d) && GoodGroups(Groups(h)) && RepeatsSingle(Groups(h))
    ensures GoodHost(After(h, d)) && GoodGroups(Groups(After(h, d))) && RepeatsSingle(Groups(After(h, d)))
  {
    AfterGroups(h, d);
    TailRepeats(Groups(h));
    assert Groups(h)[1..] == Groups(h.rest);
    OthersRepeat(Groups(h.rest), GroupText(h.ranges));
  }

  /** When repeated groups have a single number, the names are all combinations. */
  lemma {:induction false} NamesAreProduct(h: Host)
    requires GoodHost(h) && GoodGroups(Groups(h)) && RepeatsSingle(Groups(h))
    ensures HostNames(h) == Quoted(Product(h))
    decreases |Groups(h)|, 1, 0
  {
    if h.Ranged? {
      NumbersDigits(h.ranges);
      EachAreCombined(h, Numbers(h.ranges));
    }
  }

  /* ---- Otherwise they are fewer ---- */

  /** n times k. */
  function Copies(n: nat, k: nat): nat
  {
    if n == 0 then 0 else Copies(n - 1, k) + k
  }

  lemma {:induction false} MoreCopies(n: nat, a: nat, b: nat)
    ensures a <= b ==> Copies(n, a) <= Copies(n, b)
    ensures a < b && n > 0 ==> Copies(n, a) < Copies(n, b)
    ensures n > 0 ==> Copies(n, a) >= a
    ensures n > 1 && a > 0 ==> Copies(n, a) > a
    ensures Copies(n, 0) == 0
  {
    if n > 0 {
      MoreCopies(n - 1, a, b);
    }
  }

  /** How many names a host has, and how many combinations there are. */
  function Steps(gs: seq<seq<Range>>): nat
    requires GoodGroups(gs)
    decreases |gs|
  {
    if gs == [] then 1
    else
      assert gs[0] in gs;
      OthersGood(gs[1..], GroupText(gs[0]));
      Copies(|Numbers(gs[0])|, Steps(Others(gs[1..], GroupText(gs[0]))))
  }

  function Times(gs: seq<seq<Range>>): nat
    requires GoodGroups(gs)
  {
    if gs == [] then 1
    else
      assert gs[0] in gs;
      Copies(|Numbers(gs[0])|, Times(gs[1..]))
  }

  lemma {:induction false} CombinedCount(prefix: string, ds: seq<string>, xs: seq<string>)
    ensures |Combined(prefix, ds, xs)| == Copies(|ds|, |xs|)
  {
    if ds != [] {
      CombinedCount(prefix, ds[..|ds|-1], xs);
    }
  }

  lemma {:induction false} ProductCount(h: Host)
    requires GoodHost(h) && GoodGroups(Groups(h))
    ensures |Product(h)| == Times(Groups(h))
  {
    if h.Ranged? {
      assert Groups(h)[1..] == Groups(h.rest);
      ProductCount(h.rest);
      CombinedCount(h.prefix, Numbers(h.ranges), Product(h.rest));
    }
  }

  lemma {:induction false} EachCount(h: Host, ds: seq<string>)
    requires GoodHost(h) && h.Ranged? && AllNumbers(ds) && GoodGroups(Groups(h.rest))
    ensures GoodGroups(Others(Groups(h.rest), GroupText(h.ranges)))
    ensures |EachNames(h, ds)| == Copies(|ds|, Steps(Others(Groups(h.rest), GroupText(h.ranges))))
    decreases |Groups(h)|, 0, |ds|
  {
    OthersGood(Groups(h.rest), GroupText(h.ranges));
    if ds != [] {
      EachCount(h, ds[..|ds|-1]);
      AfterGroups(h, ds[|ds|-1]);
      NamesCount(After(h, ds[|ds|-1]));
    }
  }

  lemma {:induction false} NamesCount(h: Host)
    requires GoodHost(h) && GoodGroups(Groups(h))
    ensures |HostNames(h)| == Steps(Groups(h))
    decreases |Groups(h)|, 1, 0
  {
    if h.Ranged? {
      assert Groups(h)[1..] == Groups(h.rest);
      NumbersDigits(h.ranges);
      EachCount(h, Numbers(h.ranges));
    }
  }

  lemma {:induction false} TimesPositive(gs: seq<seq<Range>>)
    requires GoodGroups(gs) && !SomeEmpty(gs)
    ensures Times(gs) > 0
  {
    if gs != [] {
      assert gs[0] in gs;
      TimesPositive(gs[1..]);
      MoreCopies(|Numbers(gs[0])|, Times(gs[1..]), 0);
    }
  }

  /** Leaving out groups leaves no more combinations, and fewer if one of them has several numbers. */
  lemma {:induction false} OthersTimes(gs: seq<seq<Range>>, m: string)
    requires GoodGroups(gs) && !SomeEmpty(gs)
    ensures GoodGroups(Others(gs, m)) && Times(Others(gs, m)) <= Times(gs)
    ensures (exists g :: g in gs && GroupText(g) == m && |Numbers(g)| > 1) ==> Times(Others(gs, m)) < Times(gs)
  {
    OthersGood(gs, m);
    if gs != [] {
      assert gs[0] in gs && gs == [gs[0]] + gs[1..];
      OthersTimes(gs[1..], m);
      TimesPositive(gs[1..]);
      var c, a, b := |Numbers(gs[0])|, Times(Others(gs[1..], m)), Times(gs[1..]);
      MoreCopies(c, a, b);
      MoreCopies(c, b, b);
    }
  }

  /** A pair of equal groups with several numbers. */
  ghost predicate Repeated(gs: seq<seq<Range>>, i: int, j: int)
    requires GoodGroups(gs)
  {
    0 <= i < j < |gs| && gs[i] == gs[j] && (assert gs[i] in gs; |Numbers(gs[i])| > 1)
  }

  lemma {:induction false} OthersPair(gs: seq<seq<Range>>, m: string, i: nat, j: nat) returns (k: nat, l: nat)
    requires i < j < |gs| && GroupText(gs[i]) != m && GroupText(gs[j]) != m
    ensures k < l < |Others(gs, m)| && Others(gs, m)[k] == gs[i] && Others(gs, m)[l] == gs[j]
  {
    var kept := if GroupText(gs[0]) == m then 0 else 1;
    if i == 0 {
      OthersIn(gs[1..], m, gs[j]);
      assert gs[1..][j-1] == gs[j];
      k := 0;
      l :| 0 <= l < |Others(gs[1..], m)| && Others(gs[1..], m)[l] == gs[j];
      l := l + 1;
    } else {
      k, l := OthersPair(gs[1..], m, i - 1, j - 1);
      k, l := k + kept, l + kept;
    }
  }

  lemma {:induction false} OthersNonEmpty(gs: seq<seq<Range>>, m: string)
    requires GoodGroups(gs) && !SomeEmpty(gs)
    ensures GoodGroups(Others(gs, m)) && !SomeEmpty(Others(gs, m))
  {
    OthersGood(gs, m);
    forall g | g in Others(gs, m)
      ensures Numbers(g) != []
    {
      OthersIn(gs, m, g);
    }
  }

  lemma {:induction false} StepsAtMost(gs: seq<seq<Range>>)
    requires GoodGroups(gs) && !SomeEmpty(gs)
    ensures Steps(gs) <= Times(gs)
    decreases |gs|
  {
    if gs != [] {
      var m := GroupText(gs[0]);
      assert gs[0] in gs;
      OthersNonEmpty(gs[1..], m);
      StepsAtMost(Others(gs[1..], m));
      OthersTimes(gs[1..], m);
      MoreCopies(|Numbers(gs[0])|, Steps(Others(gs[1..], m)), Times(gs[1..]));
    }
  }

  lemma {:induction false} StepsFall(gs: seq<seq<Range>>)
    requires gs != [] && GoodGroups(gs) && !SomeEmpty(gs) && GoodGroups(Others(gs[1..], GroupText(gs[0])))
    requires Steps(Others(gs[1..], GroupText(gs[0]))) < Times(gs[1..])
    ensures Steps(gs) < Times(gs)
  {
    assert gs[0] in gs;
    MoreCopies(|Numbers(gs[0])|, Steps(Others(gs[1..], GroupText(gs[0]))), Times(gs[1..]));
  }

  /** A repeated group with several numbers costs names. */
  lemma {:induction false} StepsBelow(gs: seq<seq<Range>>, i: nat, j: nat)
    requires GoodGroups(gs) && !SomeEmpty(gs) && Repeated(gs, i, j)
    ensures Steps(gs) < Times(gs)
    decreases |gs|
  {
    var m, rest := GroupText(gs[0]), gs[1..];
    OthersNonEmpty(rest, m);
    OthersTimes(rest, m);
    if GroupText(gs[i]) == m {
      StepsAtMost(Others(rest, m));
      assert rest[j-1] in rest;
    } else {
      var k, l := OthersPair(rest, m, i - 1, j - 1);
      assert Others(rest, m)[k] in Others(rest, m);
      StepsBelow(Others(rest, m), k, l);
    }
    StepsFall(gs);
  }

  lemma {:induction false} EmptyTimes(gs: seq<seq<Range>>)
    requires GoodGroups(gs) && SomeEmpty(gs)
    ensures Times(gs) == 0
  {
    assert gs[0] in gs && gs == [gs[0]] + gs[1..];
    if Numbers(gs[0]) != [] {
      EmptyTimes(gs[1..]);
      MoreCopies(|Numbers(gs[0])|, 0, 0);
    }
  }

  lemma {:induction false} EmptySteps(gs: seq<seq<Range>>)
    requires GoodGroups(gs) && SomeEmpty(gs)
    ensures Steps(gs) == 0
    decreases |gs|
  {
    var m := GroupText(gs[0]);
    assert gs[0] in gs && gs == [gs[0]] + gs[1..];
    OthersGood(gs[1..], m);
    if Numbers(gs[0]) != [] {
      var g :| g in gs && Numbers(g) == [];
      if GroupText(g) == m {
        TextInjective(g, gs[0]);
      }
      OthersIn(gs[1..], m, g);
      EmptySteps(Others(gs[1..], m));
      MoreCopies(|Numbers(gs[0])|, 0, 0);
    }
  }

  /**
   * The names of a host are all combinations of the numbers of its groups exactly when some group has no number, or
   * every group that occurs again has a single one.
   */
  lemma {:induction false} ProductExactly(h: Host)
    requires GoodHost(h)
    ensures GoodGroups(Groups(h))
    ensures HostNames(h) == Quoted(Product(h)) <==> SomeEmpty(Groups(h)) || RepeatsSingle(Groups(h))
  {
    var gs := Groups(h);
    GroupsGood(h);
    NamesCount(h);
    ProductCount(h);
    if SomeEmpty(gs) {
      EmptyTimes(gs);
      EmptySteps(gs);
    } else if RepeatsSingle(gs) {
      NamesAreProduct(h);
    } else {
      var i, j :| 0 <= i < j < |gs| && gs[i] == gs[j] && (assert gs[i] in gs; |Numbers(gs[i])| != 1);
      assert gs[i] in gs && Numbers(gs[i]) != [];
      StepsBelow(gs, i, j);
    }
  }

  /** So a printed host is parsed to all combinations exactly then, if it stays in one piece and is not endless. */
  lemma {:induction false} ParsedProduct(h: Host)
    requires GoodHost(h) && Delimitable(h) && !HostEndless(h)
    ensures GoodGroups(Groups(h))
    ensures Parse(Render(h)) == Hosts(Quoted(Product(h))) <==> SomeEmpty(Groups(h)) || RepeatsSingle(Groups(h))
  {
    OneHost(h);
    ProductExactly(h);
  }

  /* ---- Two equal groups ---- */

  const BIT: Range := Range("0", Some("1"))
  const TWIN: Host := Ranged("b", [BIT], Plain(""))
  const TWINS: Host := Ranged("a", [BIT], TWIN)

  lemma {:induction false} BitNumbers()
    ensures GoodRanges([BIT]) && Numbers([BIT]) == ["0", "1"] && !SomeEndless([BIT])
  {
    assert "0"[..0] == "" && "1"[..0] == "";
    assert Value("0") == 0 && Value("1") == 1;
    assert Pad(1, 0) == "0" && Pad(1, 1) == "1";
    assert NumberTexts(1, 0, 2) == ["0", "1"];
    assert [BIT][..0] == [];
  }

  lemma {:induction false} TwinsText()
    ensures Render(TWINS) == "a[0-1]b[0-1]" && Groups(TWIN) == [[BIT]] && Groups(TWINS) == [[BIT], [BIT]]
  {
    assert RenderRange(BIT) == "0-1";
    assert RenderRanges([BIT]) == ["0-1"];
    assert GroupText([BIT]) == "[0-1]";
    assert Groups(Plain("")) == [] && Groups(TWIN) == [[BIT]] + [];
    assert Render(TWIN) == "b[0-1]";
  }

  lemma {:induction false} QuotePlain(s: string)
    requires forall i :: 0 <= i < |s| ==> s[i] !in "\\.+*?()|[]{}^$"
    ensures QuoteMeta(s) == s
  {
    if s != "" {
      QuotePlain(s[1..]);
      assert s == [s[0]] + s[1..];
    }
  }

  lemma {:induction false} TwinNamed(d: string)
    ensures After(TWINS, d) == Plain("a" + d + "b" + d)
  {
    var m := GroupText([BIT]);
    assert Subst(Plain(""), m, d) == Plain("");
    assert Subst(TWIN, m, d) == Plain("b" + d + "");
    assert "a" + d + ("b" + d + "") == "a" + d + "b" + d;
  }

  lemma {:induction false} TwoNumbers(h: Host, d: string, e: string)
    requires GoodHost(h) && h.Ranged? && Numbers(h.ranges) == [d, e]
    ensures GoodHost(After(h, d)) && GoodHost(After(h, e))
    ensures HostNames(h) == HostNames(After(h, d)) + HostNames(After(h, e))
  {
    NumbersDigits(h.ranges);
    assert d in Numbers(h.ranges) && e in Numbers(h.ranges);
    SubstGood(h, GroupText(h.ranges), d);
    SubstGood(h, GroupText(h.ranges), e);
    assert [d, e][..1] == [d] && [d][..0] == [];
    assert EachNames(h, [d]) == [] + HostNames(After(h, d)) == HostNames(After(h, d));
  }

  lemma {:induction false} TwoNames(h: Host, d: string, e: string, s: string, t: string)
    requires GoodHost(h) && h.Ranged? && Numbers(h.ranges) == [d, e]
    requires After(h, d) == Plain(s) && After(h, e) == Plain(t)
    ensures HostNames(h) == [QuoteMeta(s), QuoteMeta(t)]
  {
    TwoNumbers(h, d, e);
  }

  lemma {:induction false} TwinNames()
    ensures GoodHost(TWINS) && HostNames(TWINS) == [QuoteMeta("a0b0"), QuoteMeta("a1b1")]
  {
    BitNumbers();
    TwinNamed("0");
    TwinNamed("1");
    assert "a" + "0" + "b" + "0" == "a0b0" && "a" + "1" + "b" + "1" == "a1b1";
    TwoNames(TWINS, "0", "1", "a0b0", "a1b1");
  }

  lemma {:induction false} TwinsEnd()
    ensures GoodHost(TWINS) && Delimitable(TWINS) && !HostEndless(TWINS)
  {
    BitNumbers();
    TwinsText();
    HostEndlessIs(TWINS);
    OthersGood(Groups(TWIN), GroupText([BIT]));
    assert Groups(TWIN)[1..] == [];
    assert Others(Groups(TWIN), GroupText([BIT])) == [];
  }

  lemma {:induction false} TwinsNamed(h: Host, s: string, t: string)
    requires h == TWINS && s == "a0b0" && t == "a1b1"
    ensures GoodHost(h) && HostNames(h) == [s, t]
  {
    TwinNames();
    TwinsQuoted(s, t);
  }

  lemma {:induction false} TwinsQuoted(s: string, t: string)
    requires s == "a0b0" && t == "a1b1"
    ensures QuoteMeta(s) == s && QuoteMeta(t) == t
  {
    QuotePlain(s);
    QuotePlain(t);
  }

  /** Equal groups go in step: two names instead of four. */
  lemma {:induction false} TwinsInStep(text: string)
    requires text == "a[0-1]b[0-1]"
    ensures Parse(text) == Hosts(["a0b0", "a1b1"])
  {
    var h, s, t := TWINS, "a0b0", "a1b1";
    TwinsEnd();
    TwinsText();
    TwinsNamed(h, s, t);
    OneHost(h);
  }

  /* ---- Several ranges in some groups only ---- */

  lemma {:induction false} TwoParts(a: string, b: string, text: string)
    requires ',' !in a && ',' !in b && text == a + [','] + b
    ensures Split(text, ',') == [a, b] && Join([a, b], '|') == a + ['|'] + b
  {
    SplitPlain(b, ',');
    SplitCons(a, b, ',');
  }

  /** In the first group alone: the source runs off the slice. */
  lemma {:induction false} FirstSeveralPanics(text: string)
    requires text == "a[0,1]b[2]"
    ensures Parse(text).Panics?
  {
    var a, b := "a[0", "1]b[2]";
    TwoParts(a, b, text);
    assert a[1] == '[' && b[3] == '[';
    assert Unclosed(Split(text, ','), 0);
    ParsePanicsExactly(text);
  }

  /** Where the first group is one range and a later one several, every comma cuts the host. */
  lemma {:induction false} CutAtCommas(h: Host)
    requires GoodHost(h) && SomeSeveral(Groups(h)) && Groups(h) != [] && |Groups(h)[0]| == 1
    ensures Delimit(Render(h)) == Some(Join(Split(Render(h), ','), '|')) && Delimit(Render(h)) != Some(Render(h))
  {
    PartsShaped(h);
    NoneOpens(Split(Render(h), ','), 0, 0);
    assert Split(Render(h), ',')[0..] == Split(Render(h), ',');
    CutInPieces(h);
  }

  /** In the last group alone: two nodes, of which neither is a host. */
  lemma {:induction false} LastSeveralCut(text: string)
    requires text == "a[0]b[1,2]"
    ensures Delimit(text) == Some("a[0]b[1" + ['|'] + "2]")
  {
    var a, b := "a[0]b[1", "2]";
    TwoParts(a, b, text);
    assert a[3] == ']' && b[1] == ']';
    NoneOpens([a, b], 0, 0);
    assert [a, b][0..] == [a, b];
  }
}
