/**
 * Hosts as they are printed in a SLURM node list, with any number of bracket groups, the names each stands for, and
 * what putting a number in the place of a group makes of a host (internal/common/helpers.go).
 */
module NodelistHosts {
  import opened Counters
  import opened Nodelists
  import opened Options
  import opened Texts

  /** One number, or two as a range; the digits of the first fix the width. */
  datatype Range = Range(lo: string, hi: Option<string>)

  /** A name, or a bracket group of ranges between a prefix and the rest. */
  datatype Host = Plain(name: string) | Ranged(prefix: string, ranges: seq<Range>, rest: Host)

  predicate GoodName(s: string)
  {
    ',' !in s && '[' !in s && ']' !in s && '|' !in s
  }

  predicate GoodNumber(s: string)
  {
    s != "" && AllDigits(s)
  }

  predicate GoodRange(r: Range)
  {
    GoodNumber(r.lo) && (r.hi.Some? ==> GoodNumber(r.hi.value))
  }

  predicate GoodRanges(ranges: seq<Range>)
  {
    ranges != [] && forall r :: r in ranges ==> GoodRange(r)
  }

  predicate GoodHost(h: Host)
  {
    match h
    case Plain(name) => GoodName(name)
    case Ranged(prefix, ranges, rest) => GoodName(prefix) && GoodRanges(ranges) && GoodHost(rest)
  }

  function RenderRange(r: Range): string
  {
    if r.hi.None? then r.lo else r.lo + ['-'] + r.hi.value
  }

  function RenderRanges(ranges: seq<Range>): (rs: seq<string>)
    ensures |rs| == |ranges|
  {
    seq(|ranges|, i requires 0 <= i < |ranges| => RenderRange(ranges[i]))
  }

  function GroupText(ranges: seq<Range>): (s: string)
    ensures s != "" && s[0] == '['
  {
    ['['] + Join(RenderRanges(ranges), ',') + [']']
  }

  function Render(h: Host): string
  {
    match h
    case Plain(name) => name
    case Ranged(prefix, ranges, rest) => prefix + GroupText(ranges) + Render(rest)
  }

  function RenderAll(hosts: seq<Host>): (rs: seq<string>)
    ensures |rs| == |hosts|
  {
    seq(|hosts|, i requires 0 <= i < |hosts| => Render(hosts[i]))
  }

  /** The bracket groups of a host. */
  function Groups(h: Host): seq<seq<Range>>
  {
    if h.Plain? then [] else [h.ranges] + Groups(h.rest)
  }

  /* ---- A number in the place of a group ---- */

  function Before(s: string, h: Host): (r: Host)
    ensures Groups(r) == Groups(h)
  {
    match h
    case Plain(name) => Plain(s + name)
    case Ranged(prefix, ranges, rest) => Ranged(s + prefix, ranges, rest)
  }

  /** Every group with the text m is replaced by d. */
  function Subst(h: Host, m: string, d: string): (r: Host)
    ensures |Groups(r)| <= |Groups(h)|
    ensures h.Ranged? && GroupText(h.ranges) == m ==> |Groups(r)| < |Groups(h)|
  {
    match h
    case Plain(name) => h
    case Ranged(prefix, ranges, rest) =>
      if GroupText(ranges) == m then Before(prefix + d, Subst(rest, m, d))
      else Ranged(prefix, ranges, Subst(rest, m, d))
  }

  /** The host with a number in the place of its first group, and of every group like it. */
  function After(h: Host, d: string): (r: Host)
    requires h.Ranged?
    ensures |Groups(r)| < |Groups(h)|
  {
    Subst(h, GroupText(h.ranges), d)
  }

  /** The groups with another text than m. */
  function Others(gs: seq<seq<Range>>, m: string): (r: seq<seq<Range>>)
    ensures |r| <= |gs|
  {
    if gs == [] then []
    else if GroupText(gs[0]) == m then Others(gs[1..], m)
    else [gs[0]] + Others(gs[1..], m)
  }

  lemma {:induction false} SubstGroups(h: Host, m: string, d: string)
    ensures Groups(Subst(h, m, d)) == Others(Groups(h), m)
  {
    if h.Ranged? {
      SubstGroups(h.rest, m, d);
      assert Groups(h)[1..] == Groups(h.rest);
    }
  }

  lemma {:induction false} BeforeGood(s: string, h: Host)
    requires GoodName(s) && GoodHost(h)
    ensures GoodHost(Before(s, h))
  {
  }

  lemma {:induction false} SubstGood(h: Host, m: string, d: string)
    requires GoodHost(h) && AllDigits(d)
    ensures GoodHost(Subst(h, m, d))
  {
    if h.Ranged? {
      SubstGood(h.rest, m, d);
      DigitsPlain(d);
      BeforeGood(h.prefix + d, Subst(h.rest, m, d));
    }
  }

  lemma {:induction false} RenderBefore(s: string, h: Host)
    ensures Render(Before(s, h)) == s + Render(h)
  {
    if h.Ranged? {
      var t, u := GroupText(h.ranges), Render(h.rest);
      assert s + (h.prefix + t + u) == s + h.prefix + t + u;
    }
  }

  /* ---- The names ---- */

  /** The first and last number of a range. */
  function First(r: Range): nat
    requires GoodRange(r)
  {
    Value(r.lo)
  }

  function Last(r: Range): nat
    requires GoodRange(r)
  {
    if r.hi.None? then Value(r.lo) else Value(r.hi.value)
  }

  /** The numbers from start up to, but not including, end, padded with zeros. */
  function NumberTexts(width: nat, start: nat, end: nat): (ds: seq<string>)
    ensures |ds| == if start <= end then end - start else 0
  {
    seq(if start <= end then end - start else 0, i requires 0 <= i => Pad(width, start + i))
  }

  /** Every number from first to last, padded to the width of the first. Bounds beyond 64 bits give none. */
  function RangeNumbers(r: Range): seq<string>
    requires GoodRange(r)
  {
    if First(r) > MAX_INT || Last(r) > MAX_INT then [] else NumberTexts(|r.lo|, First(r), Last(r) + 1)
  }

  function Numbers(ranges: seq<Range>): seq<string>
    requires forall r :: r in ranges ==> GoodRange(r)
  {
    if ranges == [] then [] else Numbers(ranges[..|ranges|-1]) + RangeNumbers(ranges[|ranges|-1])
  }

  predicate AllNumbers(ds: seq<string>)
  {
    forall d :: d in ds ==> AllDigits(d)
  }

  lemma {:induction false} RangeNumbersDigits(r: Range)
    requires GoodRange(r)
    ensures AllNumbers(RangeNumbers(r))
  {
    var ds := RangeNumbers(r);
    forall d | d in ds
      ensures AllDigits(d)
    {
      var i :| 0 <= i < |ds| && ds[i] == d;
      PadPlain(|r.lo|, First(r) + i);
    }
  }

  lemma {:induction false} NumbersDigits(ranges: seq<Range>)
    requires forall r :: r in ranges ==> GoodRange(r)
    ensures AllNumbers(Numbers(ranges))
  {
    if ranges != [] {
      NumbersDigits(ranges[..|ranges|-1]);
      RangeNumbersDigits(ranges[|ranges|-1]);
    }
  }

  /** The names of a host for each of these numbers in its first group. */
  function EachNames(h: Host, ds: seq<string>): seq<string>
    requires GoodHost(h) && h.Ranged? && AllNumbers(ds)
    decreases |Groups(h)|, 0, |ds|
  {
    if ds == [] then []
    else
      SubstGood(h, GroupText(h.ranges), ds[|ds|-1]);
      EachNames(h, ds[..|ds|-1]) + HostNames(After(h, ds[|ds|-1]))
  }

  /** The names of a host: for each number of its first group, in order, the names of what is left. */
  function HostNames(h: Host): seq<string>
    requires GoodHost(h)
    decreases |Groups(h)|, 1, 0
  {
    if h.Plain? then [QuoteMeta(h.name)]
    else
      NumbersDigits(h.ranges);
      EachNames(h, Numbers(h.ranges))
  }

  function AllNames(hosts: seq<Host>): seq<string>
    requires forall h :: h in hosts ==> GoodHost(h)
  {
    if hosts == [] then [] else AllNames(hosts[..|hosts|-1]) + HostNames(hosts[|hosts|-1])
  }

  /* ---- Hosts that are never expanded to the end ---- */

  /** A range that ends at the largest integer. */
  predicate Endless(r: Range)
    requires GoodRange(r)
  {
    First(r) <= Last(r) == MAX_INT
  }

  predicate SomeEndless(ranges: seq<Range>)
    requires forall r :: r in ranges ==> GoodRange(r)
  {
    exists r :: r in ranges && Endless(r)
  }

  predicate GoodGroups(gs: seq<seq<Range>>)
  {
    forall g :: g in gs ==> GoodRanges(g)
  }

  /** An endless range in the first group, or in a later one if the first gives a number to go on with. */
  predicate AnyEndless(gs: seq<seq<Range>>)
    requires GoodGroups(gs)
    decreases |gs|
  {
    if gs == [] then false
    else
      assert GoodRanges(gs[0]);
      OthersGood(gs[1..], GroupText(gs[0]));
      SomeEndless(gs[0]) || (Numbers(gs[0]) != [] && AnyEndless(Others(gs[1..], GroupText(gs[0]))))
  }

  lemma {:induction false} OthersGood(gs: seq<seq<Range>>, m: string)
    requires GoodGroups(gs)
    ensures GoodGroups(Others(gs, m))
  {
    if gs != [] {
      OthersGood(gs[1..], m);
    }
  }

  lemma {:induction false} GroupsGood(h: Host)
    requires GoodHost(h)
    ensures GoodGroups(Groups(h))
  {
    if h.Ranged? {
      GroupsGood(h.rest);
    }
  }

  predicate HostEndless(h: Host)
    requires GoodHost(h)
  {
    GroupsGood(h);
    AnyEndless(Groups(h))
  }

  predicate HostsEndless(hosts: seq<Host>)
    requires forall h :: h in hosts ==> GoodHost(h)
  {
    exists h :: h in hosts && HostEndless(h)
  }

  /** What is left is endless or not whatever the number. */
  predicate RestEndless(h: Host)
    requires GoodHost(h) && h.Ranged?
  {
    GroupsGood(h.rest);
    OthersGood(Groups(h.rest), GroupText(h.ranges));
    AnyEndless(Others(Groups(h.rest), GroupText(h.ranges)))
  }

  lemma {:induction false} AfterEndless(h: Host, d: string)
    requires GoodHost(h) && h.Ranged? && AllDigits(d)
    ensures GoodHost(After(h, d)) && (HostEndless(After(h, d)) <==> RestEndless(h))
  {
    SubstGood(h, GroupText(h.ranges), d);
    SubstGroups(h, GroupText(h.ranges), d);
    assert Groups(h)[1..] == Groups(h.rest);
  }

  lemma {:induction false} HostEndlessIs(h: Host)
    requires GoodHost(h) && h.Ranged?
    ensures HostEndless(h) <==> SomeEndless(h.ranges) || (Numbers(h.ranges) != [] && RestEndless(h))
  {
    GroupsGood(h);
    GroupsGood(h.rest);
    assert Groups(h)[1..] == Groups(h.rest);
  }

  /* ---- Characters ---- */

  lemma {:induction false} DigitsPlain(s: string)
    requires AllDigits(s)
    ensures '[' !in s && ']' !in s && ',' !in s && '|' !in s && '-' !in s && '\n' !in s && '+' !in s
  {
    assert forall i :: 0 <= i < |s| ==> IsDigit(s[i]);
  }

  lemma {:induction false} RangePlain(r: Range)
    requires GoodRange(r)
    ensures var s := RenderRange(r); '[' !in s && ']' !in s && ',' !in s && '|' !in s && '\n' !in s
  {
    DigitsPlain(r.lo);
    if r.hi.Some? {
      DigitsPlain(r.hi.value);
    }
  }

  lemma {:induction false} RangesPlain(ranges: seq<Range>)
    requires forall r :: r in ranges ==> GoodRange(r)
    ensures forall x :: x in RenderRanges(ranges) ==> '[' !in x && ']' !in x && ',' !in x && '|' !in x && '\n' !in x
  {
    var rs := RenderRanges(ranges);
    forall x | x in rs
      ensures '[' !in x && ']' !in x && ',' !in x && '|' !in x && '\n' !in x
    {
      var i :| 0 <= i < |rs| && rs[i] == x;
      assert ranges[i] in ranges;
      RangePlain(ranges[i]);
    }
  }

  lemma {:induction false} BodyPlain(ranges: seq<Range>)
    requires forall r :: r in ranges ==> GoodRange(r)
    ensures var s := Join(RenderRanges(ranges), ','); '[' !in s && ']' !in s && '|' !in s && '\n' !in s
  {
    var rs := RenderRanges(ranges);
    RangesPlain(ranges);
    JoinWithout(rs, ',', '[');
    JoinWithout(rs, ',', ']');
    JoinWithout(rs, ',', '|');
    JoinWithout(rs, ',', '\n');
  }

  lemma {:induction false} RenderNoBar(h: Host)
    requires GoodHost(h)
    ensures '|' !in Render(h)
  {
    if h.Ranged? {
      BodyPlain(h.ranges);
      RenderNoBar(h.rest);
    }
  }
}
