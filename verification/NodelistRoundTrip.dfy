/** Printing lists of nodes and parsing them back, with the delimiter (internal/common/helpers.go). */
module NodelistRoundTrip {
  import opened Counters
  import opened NodelistExpansion
  import opened NodelistHosts
  import opened Nodelists
  import opened Options
  import opened Seqs
  import opened Texts

  /* ---- The parts of one host between commas ---- */

  /** The parts of a bracket group and its prefix; with several ranges the first part opens and the last closes. */
  ghost predicate GroupParts(ps: seq<string>, several: bool)
  {
    && ps != [] && '[' in ps[0] && ']' in ps[|ps|-1]
    && if several then
         && |ps| > 1 && ']' !in ps[0]
         && (forall i :: 0 < i < |ps| ==> '[' !in ps[i])
         && (forall i :: 0 < i < |ps| - 1 ==> ']' !in ps[i])
       else |ps| == 1
  }

  lemma {:induction false} TailParts(rs: seq<string>)
    requires rs != [] && forall x :: x in rs ==> '[' !in x && ']' !in x && ',' !in x
    ensures var ps := Split(Join(rs, ',') + [']'], ',');
      && |ps| == |rs|
      && (forall i :: 0 <= i < |ps| ==> '[' !in ps[i])
      && (forall i :: 0 <= i < |ps| - 1 ==> ']' !in ps[i])
      && ']' in ps[|ps|-1]
  {
    if |rs| == 1 {
      var t := rs[0] + [']'];
      SplitPlain(t, ',');
      assert t[|rs[0]|] == ']';
    } else {
      TailParts(rs[1..]);
      var rest := Join(rs[1..], ',') + [']'];
      assert Join(rs, ',') + [']'] == rs[0] + [','] + rest;
      SplitCons(rs[0], rest, ',');
    }
  }

  lemma {:induction false} PartsOfGroup(prefix: string, ranges: seq<Range>)
    requires GoodName(prefix) && GoodRanges(ranges)
    ensures GroupParts(Split(prefix + GroupText(ranges), ','), |ranges| > 1)
  {
    var rs := RenderRanges(ranges);
    RangesPlain(ranges);
    PartsOfTexts(prefix, rs);
  }

  lemma {:induction false} PartsOfTexts(prefix: string, rs: seq<string>)
    requires GoodName(prefix) && rs != [] && forall x :: x in rs ==> '[' !in x && ']' !in x && ',' !in x
    ensures GroupParts(Split(prefix + (['['] + Join(rs, ',') + [']']), ','), |rs| > 1)
  {
    var s := prefix + (['['] + Join(rs, ',') + [']']);
    if |rs| == 1 {
      assert rs[0] in rs;
      SplitPlain(s, ',');
      assert s[|prefix|] == '[' && s[|s|-1] == ']';
    } else {
      var head, rest := prefix + ['['] + rs[0], Join(rs[1..], ',') + [']'];
      assert rs[0] in rs && head[|prefix|] == '[';
      assert s == head + [','] + rest;
      SplitCons(head, rest, ',');
      TailParts(rs[1..]);
    }
  }

  predicate SomeSeveral(gs: seq<seq<Range>>)
  {
    exists g :: g in gs && |g| > 1
  }

  /** What the parts of a host with these groups look like. */
  ghost predicate Shaped(ps: seq<string>, gs: seq<seq<Range>>)
  {
    && ps != [] && ('[' in ps[0] <==> gs != [])
    && (Opens(ps[0]) <==> gs != [] && |gs[0]| > 1)
    && (forall k :: 0 < k < |ps| ==> !Opens(ps[k]))
    && (forall k :: 0 < k < |ps| - 1 ==> !Closes(ps[k]))
    && (|ps| > 1 <==> SomeSeveral(gs))
    && (|ps| > 1 ==> gs != [] && (Closes(ps[|ps|-1]) <==> |gs[|gs|-1]| > 1))
  }

  /** The parts of a group are followed by those of the rest of the host. */
  lemma {:induction false} GlueShaped(ps: seq<string>, qs: seq<string>, g: seq<Range>, gs: seq<seq<Range>>)
    requires GroupParts(ps, |g| > 1) && Shaped(qs, gs)
    ensures Shaped(Glue(ps, qs), [g] + gs)
  {
    var n, t := |ps| - 1, Glue(ps, qs);
    assert t[n] == ps[n] + qs[0];
    assert ']' in t[n];
    assert forall k :: 0 <= k < n ==> t[k] == ps[k];
    assert forall k :: n < k < |t| ==> t[k] == qs[k-n];
    GlueFirstPart(ps, qs, |g| > 1);
    GlueSeveral(g, gs);
  }

  lemma {:induction false} GlueFirstPart(ps: seq<string>, qs: seq<string>, several: bool)
    requires GroupParts(ps, several) && qs != []
    ensures '[' in Glue(ps, qs)[0] && (Opens(Glue(ps, qs)[0]) <==> several)
    ensures '[' in Glue(ps, qs)[|ps|-1] <==> !several || '[' in qs[0]
  {
    var n, t := |ps| - 1, Glue(ps, qs);
    assert t[n] == ps[n] + qs[0];
    if several {
      assert t[0] == ps[0];
    }
  }

  lemma {:induction false} GlueSeveral(g: seq<Range>, gs: seq<seq<Range>>)
    ensures SomeSeveral([g] + gs) <==> |g| > 1 || SomeSeveral(gs)
    ensures ([g] + gs)[|gs|] == if gs == [] then g else gs[|gs|-1]
  {
    assert ([g] + gs)[0] == g;
  }

  lemma {:induction false} PartsShaped(h: Host)
    requires GoodHost(h)
    ensures Shaped(Split(Render(h), ','), Groups(h))
  {
    if h.Plain? {
      SplitPlain(h.name, ',');
    } else {
      PartsOfGroup(h.prefix, h.ranges);
      PartsShaped(h.rest);
      SplitConcat(h.prefix + GroupText(h.ranges), Render(h.rest), ',');
      GlueShaped(Split(h.prefix + GroupText(h.ranges), ','), Split(Render(h.rest), ','), h.ranges, Groups(h.rest));
    }
  }

  /** All groups are a single range, or the first and the last group both have several. */
  predicate Delimitable(h: Host)
  {
    SomeSeveral(Groups(h)) ==> Groups(h) != [] && |Groups(h)[0]| > 1 && |Groups(h)[|Groups(h)|-1]| > 1
  }

  /** The parts of one host: one part that does not open a group, or a group swept from its first part to its last. */
  ghost predicate HostParts(ps: seq<string>)
  {
    if |ps| == 1 then !Opens(ps[0])
    else
      && |ps| > 1 && Opens(ps[0]) && Closes(ps[|ps|-1])
      && (forall i :: 0 < i < |ps| ==> !Opens(ps[i]))
      && (forall i :: 0 < i < |ps| - 1 ==> !Closes(ps[i]))
  }

  lemma {:induction false} PartsOfHost(h: Host)
    requires GoodHost(h) && Delimitable(h)
    ensures HostParts(Split(Render(h), ','))
  {
    PartsShaped(h);
    var ps, gs := Split(Render(h), ','), Groups(h);
    if |ps| == 1 && gs != [] {
      assert gs[0] in gs;
    }
  }

  function AllParts(hosts: seq<Host>): seq<string>
  {
    if hosts == [] then [] else Split(Render(hosts[0]), ',') + AllParts(hosts[1..])
  }

  lemma {:induction false} SplitHosts(hosts: seq<Host>)
    requires hosts != []
    ensures Split(Join(RenderAll(hosts), ','), ',') == AllParts(hosts)
  {
    var all := RenderAll(hosts);
    if |hosts| == 1 {
      assert AllParts(hosts[1..]) == [];
    } else {
      assert all[1..] == RenderAll(hosts[1..]);
      SplitHosts(hosts[1..]);
      SplitAppend(all[0], Join(all[1..], ','), ',');
    }
  }

  lemma {:induction false} CloseFound(parts: seq<string>, i: nat, e: nat)
    requires i <= e < |parts| && Closes(parts[e]) && forall k :: i <= k < e ==> !Closes(parts[k])
    ensures FindClose(parts, i) == Some(e)
    decreases e - i
  {
    if i < e {
      CloseFound(parts, i + 1, e);
    }
  }

  /** Parts already swept in are passed over. */
  lemma {:induction false} SweptSkipped(parts: seq<string>, i: nat, e: nat)
    requires 0 < i <= e + 1 <= |parts| && forall k :: i <= k <= e ==> !Opens(parts[k])
    ensures Regroup(parts, i, e) == Regroup(parts, e + 1, e)
    decreases e - i
  {
    if i <= e {
      SweptSkipped(parts, i + 1, e);
    }
  }

  lemma {:induction false} RegroupGroup(parts: seq<string>, a: nat, e: nat, idxEnd: nat)
    requires a < e < |parts| && Opens(parts[a]) && Closes(parts[e])
    requires forall k :: a < k < e ==> !Closes(parts[k])
    requires forall k :: a < k <= e ==> !Opens(parts[k])
    ensures Regroup(parts, a, idxEnd) == Prepend([Join(parts[a..e+1], ',')], Regroup(parts, e + 1, e))
  {
    CloseFound(parts, a + 1, e);
    SweptSkipped(parts, a + 1, e);
  }

  /** One host of the text becomes one node. */
  lemma {:induction false} RegroupHost(parts: seq<string>, a: nat, b: nat, idxEnd: nat)
    requires a < b <= |parts| && HostParts(parts[a..b]) && (a != 0 ==> idxEnd < a)
    ensures Regroup(parts, a, idxEnd) == Prepend([Join(parts[a..b], ',')], Regroup(parts, b, b - 1))
  {
    var ps, e := parts[a..b], b - 1;
    assert parts[a] == ps[0];
    if |ps| > 1 {
      assert parts[e] == ps[|ps|-1];
      forall k | a < k <= e
        ensures !Opens(parts[k]) && (k < e ==> !Closes(parts[k]))
      {
        assert parts[k] == ps[k-a];
      }
      RegroupGroup(parts, a, e, idxEnd);
    } else {
      assert Join(ps, ',') == ps[0];
    }
  }

  lemma {:induction false} AllPartsFirst(all: seq<string>, a: nat, hosts: seq<Host>)
    requires hosts != [] && a <= |all| && all[a..] == AllParts(hosts)
    ensures var ps := Split(Render(hosts[0]), ',');
      a + |ps| <= |all| && all[a..a+|ps|] == ps && all[a+|ps|..] == AllParts(hosts[1..])
  {
    RestSplit(all, a, Split(Render(hosts[0]), ','), AllParts(hosts[1..]));
  }

  lemma {:induction false} FirstAndRest(r: Option<seq<string>>, node: string, rest: Option<seq<string>>,
      nodes: seq<string>)
    requires r == Prepend([node], rest) && rest == Some(nodes)
    ensures r == Some([node] + nodes)
  {
  }

  lemma {:induction false} RegroupRendered(all: seq<string>, a: nat, b: nat, h: Host, idxEnd: nat)
    requires GoodHost(h) && Delimitable(h) && (a != 0 ==> idxEnd < a)
    requires a < b <= |all| && all[a..b] == Split(Render(h), ',')
    ensures Regroup(all, a, idxEnd) == Prepend([Render(h)], Regroup(all, b, b - 1))
  {
    PartsOfHost(h);
    JoinSplit(Render(h), ',');
    RegroupHost(all, a, b, idxEnd);
  }

  lemma {:induction false} RegroupNext(all: seq<string>, a: nat, hosts: seq<Host>, idxEnd: nat) returns (b: nat)
    requires hosts != [] && GoodHost(hosts[0]) && Delimitable(hosts[0]) && (a != 0 ==> idxEnd < a)
    requires a <= |all| && all[a..] == AllParts(hosts)
    ensures a < b <= |all| && all[b..] == AllParts(hosts[1..])
    ensures Regroup(all, a, idxEnd) == Prepend([Render(hosts[0])], Regroup(all, b, b - 1))
  {
    AllPartsFirst(all, a, hosts);
    b := a + |Split(Render(hosts[0]), ',')|;
    RegroupRendered(all, a, b, hosts[0], idxEnd);
  }

  lemma {:induction false} RegroupHosts(all: seq<string>, a: nat, hosts: seq<Host>, idxEnd: nat)
    requires (forall h :: h in hosts ==> GoodHost(h) && Delimitable(h)) && (a != 0 ==> idxEnd < a)
    requires a <= |all| && all[a..] == AllParts(hosts)
    ensures Regroup(all, a, idxEnd) == Some(RenderAll(hosts))
    decreases |hosts|
  {
    if hosts == [] {
      assert a == |all|;
    } else {
      assert hosts[0] in hosts;
      var b := RegroupNext(all, a, hosts, idxEnd);
      RegroupHosts(all, b, hosts[1..], b - 1);
      RenderFirst(hosts);
      FirstAndRest(Regroup(all, a, idxEnd), Render(hosts[0]), Regroup(all, b, b - 1), RenderAll(hosts[1..]));
    }
  }

  lemma {:induction false} RenderFirst(hosts: seq<Host>)
    requires hosts != []
    ensures RenderAll(hosts) == [Render(hosts[0])] + RenderAll(hosts[1..])
  {
  }

  lemma {:induction false} NodesPlain(hosts: seq<Host>)
    requires forall h :: h in hosts ==> GoodHost(h)
    ensures forall p :: p in RenderAll(hosts) ==> '|' !in p
  {
    var all := RenderAll(hosts);
    forall p | p in all
      ensures '|' !in p
    {
      var i :| 0 <= i < |all| && all[i] == p;
      assert hosts[i] in hosts;
      RenderNoBar(hosts[i]);
    }
  }

  /** Commas between hosts become delimiters, commas inside brackets stay. */
  lemma {:induction false} DelimitHosts(hosts: seq<Host>)
    requires hosts != [] && forall h :: h in hosts ==> GoodHost(h) && Delimitable(h)
    ensures Delimit(Join(RenderAll(hosts), ',')) == Some(Join(RenderAll(hosts), '|'))
  {
    SplitHosts(hosts);
    RegroupHosts(AllParts(hosts), 0, hosts, 0);
  }

  /**
   * Parsing the printed list gives, in order, the names of every host. It returns exactly when no range that is reached
   * goes from some number up to the largest 64-bit integer.
   */
  lemma {:induction false} ParsePrinted(hosts: seq<Host>)
    requires hosts != [] && forall h :: h in hosts ==> GoodHost(h) && Delimitable(h)
    ensures Parse(Join(RenderAll(hosts), ',')) == if HostsEndless(hosts) then NeverReturns else Hosts(AllNames(hosts))
  {
    DelimitHosts(hosts);
    NodesPlain(hosts);
    var s := Join(RenderAll(hosts), '|');
    SplitJoin(RenderAll(hosts), '|');
    SplitCount(s, '|');
    HostsAre(hosts, CountOpen(s));
  }

  /** A part that opens a group which no later part closes. */
  ghost predicate Unclosed(parts: seq<string>, k: int)
  {
    0 <= k < |parts| && Opens(parts[k]) && forall j :: k < j < |parts| ==> !Closes(parts[j])
  }

  ghost predicate SomeUnclosed(parts: seq<string>, from: nat)
  {
    exists k :: from <= k && Unclosed(parts, k)
  }

  lemma {:induction false} CloseMissing(parts: seq<string>, i: nat)
    ensures FindClose(parts, i).None? <==> forall j :: i <= j < |parts| ==> !Closes(parts[j])
    decreases |parts| - i
  {
    if i < |parts| {
      CloseMissing(parts, i + 1);
    }
  }

  lemma {:induction false} RegroupFails(parts: seq<string>, idx: nat, idxEnd: nat)
    ensures Regroup(parts, idx, idxEnd).None? <==> SomeUnclosed(parts, idx)
    decreases |parts| - idx
  {
    if idx < |parts| {
      CloseMissing(parts, idx + 1);
      var next := if Opens(parts[idx]) && FindClose(parts, idx + 1).Some? then FindClose(parts, idx + 1).value
                  else if idx != 0 && idx <= idxEnd then idxEnd else idx;
      RegroupFails(parts, idx + 1, next);
      if Unclosed(parts, idx) {
        assert Regroup(parts, idx, idxEnd).None?;
      }
    }
  }

  /** The source runs off the slice exactly when some part between commas opens a group that no later part closes. */
  lemma {:induction false} DelimitFailsExactly(s: string)
    ensures Delimit(s).None? <==> SomeUnclosed(Split(s, ','), 0)
  {
    RegroupFails(Split(s, ','), 0, 0);
  }

  lemma {:induction false} ParsePanicsExactly(s: string)
    ensures Parse(s).Panics? <==> SomeUnclosed(Split(s, ','), 0)
  {
    DelimitFailsExactly(s);
  }

  /** A text that is cut off inside a group. */
  lemma {:induction false} CutOffPanics()
    ensures Parse("a[1,2").Panics?
  {
    SplitCons("a[1", "2", ',');
    SplitPlain("2", ',');
    assert "a[1" + [','] + "2" == "a[1,2";
    var parts := Split("a[1,2", ',');
    assert parts == ["a[1", "2"];
    assert parts[0][1] == '[';
    assert Unclosed(parts, 0);
    ParsePanicsExactly("a[1,2");
  }

  /** The empty list is printed as the empty text, which parses as one host without a name. */
  lemma {:induction false} ParseEmpty()
    ensures Parse("") == Hosts([""])
  {
    assert Split("", ',') == [""];
    assert Regroup([""], 1, 0) == Some([]);
    assert [""] + [] == [""];
    assert Regroup([""], 0, 0) == Some([""]);
    ExpandsAsOne("");
  }

  /* ---- Hosts that are cut in pieces ---- */

  /** Where no part opens a group every part is a node. */
  lemma {:induction false} NoneOpens(parts: seq<string>, idx: nat, idxEnd: nat)
    requires idx <= |parts| && (idx != 0 ==> idxEnd < idx) && forall k :: idx <= k < |parts| ==> !Opens(parts[k])
    ensures Regroup(parts, idx, idxEnd) == Some(parts[idx..])
    decreases |parts| - idx
  {
    if idx < |parts| {
      NoneOpens(parts, idx + 1, idx);
      assert parts[idx..] == [parts[idx]] + parts[idx+1..];
    }
  }

  /** Parsing a printed host panics exactly when its first group has several ranges and its last has not. */
  lemma {:induction false} HostPanicsExactly(h: Host)
    requires GoodHost(h)
    ensures Parse(Render(h)).Panics? <==>
      Groups(h) != [] && |Groups(h)[0]| > 1 && |Groups(h)[|Groups(h)|-1]| == 1
  {
    var ps, gs := Split(Render(h), ','), Groups(h);
    PartsShaped(h);
    GroupsGood(h);
    ParsePanicsExactly(Render(h));
    if gs != [] {
      assert gs[0] in gs && gs[|gs|-1] in gs;
    }
    if gs != [] && |gs[0]| > 1 {
      assert |ps| > 1;
      assert Unclosed(ps, 0) <==> |gs[|gs|-1]| == 1;
    }
  }

  /** A printed host stays in one piece exactly when all groups are one range, or the first and the last are several. */
  lemma {:induction false} StaysExactly(h: Host)
    requires GoodHost(h)
    ensures Delimit(Render(h)) == Some(Render(h)) <==> Delimitable(h)
  {
    if Delimitable(h) {
      DelimitHosts([h]);
      assert RenderAll([h]) == [Render(h)];
    } else {
      CutInPieces(h);
    }
  }

  lemma {:induction false} CutInPieces(h: Host)
    requires GoodHost(h) && !Delimitable(h)
    ensures Delimit(Render(h)) != Some(Render(h))
  {
    var ps, gs := Split(Render(h), ','), Groups(h);
    PartsShaped(h);
    GroupsGood(h);
    if |gs[0]| > 1 {
      assert gs[|gs|-1] in gs;
      HostPanicsExactly(h);
      assert Parse(Render(h)).Panics?;
    } else {
      NoneOpens(ps, 0, 0);
      assert ps[0..] == ps;
      JoinWith(ps, '|');
      RenderNoBar(h);
    }
  }

  /* ---- The largest integer ---- */

  /** A range that ends at the largest integer is never left: the counter wraps around and the guard still holds. */
  lemma {:induction false} LargestNumberStuck(start: nat, k: nat)
    requires start <= MAX_INT
    ensures Counter(start, k) <= MAX_INT
    ensures k == MAX_INT + 1 - start ==> Counter(start, k) == -MAX_INT - 1
  {
    CounterBounded(start, k);
    if k == MAX_INT + 1 - start {
      CounterIs(start, k - 1);
    }
  }

  lemma {:induction false} OneHost(host: Host)
    requires GoodHost(host) && Delimitable(host)
    ensures Parse(Render(host)) == if HostEndless(host) then NeverReturns else Hosts(HostNames(host))
  {
    ParsePrinted([host]);
    assert RenderAll([host]) == [Render(host)];
    assert [host][0] in [host] && [host][..0] == [];
    assert AllNames([host]) == HostNames(host);
  }

  lemma {:induction false} RenderOne(prefix: string, r: Range)
    ensures Render(Ranged(prefix, [r], Plain(""))) == prefix + ['['] + RenderRange(r) + [']']
  {
    assert RenderRanges([r]) == [RenderRange(r)];
  }

  lemma {:induction false} EndlessRange(prefix: string, r: Range)
    requires GoodName(prefix) && GoodRange(r) && Endless(r)
    ensures Parse(prefix + ['['] + RenderRange(r) + [']']) == NeverReturns
  {
    var host := Ranged(prefix, [r], Plain(""));
    assert [r][0] in [r] && SomeEndless([r]);
    assert Groups(host) == [[r]];
    HostEndlessIs(host);
    RenderOne(prefix, r);
    OneHost(host);
  }

  lemma {:induction false} DecimalNext(n: nat, d: nat, s: string, t: string)
    requires n > 0 && d < 10 && Decimal(n) == s && t == s + [Digit(d)]
    ensures Decimal(10 * n + d) == t
  {
  }

  lemma {:induction false} Largest5()
    ensures Decimal(92233) == "92233"
  {
    assert Decimal(9) == "9";
    DecimalNext(9, 2, "9", "92");
    DecimalNext(92, 2, "92", "922");
    DecimalNext(922, 3, "922", "9223");
    DecimalNext(9223, 3, "9223", "92233");
  }

  lemma {:induction false} Largest9()
    ensures Decimal(922337203) == "922337203"
  {
    Largest5();
    DecimalNext(92233, 7, "92233", "922337");
    DecimalNext(922337, 2, "922337", "9223372");
    DecimalNext(9223372, 0, "9223372", "92233720");
    DecimalNext(92233720, 3, "92233720", "922337203");
  }

  lemma {:induction false} Largest13()
    ensures Decimal(9223372036854) == "9223372036854"
  {
    Largest9();
    DecimalNext(922337203, 6, "922337203", "9223372036");
    DecimalNext(9223372036, 8, "9223372036", "92233720368");
    DecimalNext(92233720368, 5, "92233720368", "922337203685");
    DecimalNext(922337203685, 4, "922337203685", "9223372036854");
  }

  lemma {:induction false} Largest16()
    ensures Decimal(9223372036854775) == "9223372036854775"
  {
    Largest13();
    DecimalNext(9223372036854, 7, "9223372036854", "92233720368547");
    DecimalNext(92233720368547, 7, "92233720368547", "922337203685477");
    DecimalNext(922337203685477, 5, "922337203685477", "9223372036854775");
  }

  lemma {:induction false} Largest19()
    ensures Decimal(9223372036854775807) == "9223372036854775807"
  {
    Largest16();
    DecimalNext(9223372036854775, 8, "9223372036854775", "92233720368547758");
    DecimalNext(92233720368547758, 0, "92233720368547758", "922337203685477580");
    DecimalNext(922337203685477580, 7, "922337203685477580", "9223372036854775807");
  }

  lemma {:induction false} ZeroTo(last: string)
    ensures "a" + ['['] + RenderRange(Range("0", Some(last))) + [']'] == "a[0-" + last + "]"
  {
  }

  lemma {:induction false} EndlessUpTo(last: string)
    requires last == Decimal(MAX_INT)
    ensures Parse("a[0-" + last + "]") == NeverReturns
  {
    DecimalValue(MAX_INT);
    assert Value("0") == 0;
    EndlessRange("a", Range("0", Some(last)));
    ZeroTo(last);
  }

  lemma {:induction false} EndlessText()
    ensures "a[0-" + "9223372036854775807" + "]" == "a[0-9223372036854775807]"
  {
  }

  /** A list that never comes back. */
  lemma {:induction false} EndlessList()
    ensures Parse("a[0-9223372036854775807]") == NeverReturns
  {
    Largest19();
    EndlessUpTo("9223372036854775807");
    EndlessText();
  }
}
