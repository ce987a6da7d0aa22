/** How the names in an expanded node list are spelled (internal/common/helpers.go). */
module NodelistNames {
  import opened Counters
  import opened NodelistExpansion
  import opened NodelistHosts
  import opened NodelistProducts
  import opened NodelistRoundTrip
  import opened Nodelists
  import opened Options
  import opened Texts

  /* ---- Zero padding ---- */

  lemma {:induction false} ZerosValue(n: nat, d: string)
    requires AllDigits(d)
    ensures AllDigits(Zeros(n) + d) && Value(Zeros(n) + d) == Value(d)
  {
    var s := Zeros(n) + d;
    if d == "" {
      if n > 0 {
        ZerosValue(n - 1, "");
        assert Zeros(n - 1) + "" == Zeros(n - 1);
        assert s[..|s|-1] == Zeros(n - 1);
      }
    } else {
      ZerosValue(n, d[..|d|-1]);
      assert s[..|s|-1] == Zeros(n) + d[..|d|-1];
    }
  }

  /** The length of a number at a width: the width, or its digits if there are more of them. */
  function Digits(width: nat, n: nat): nat
  {
    if |Decimal(n)| > width then |Decimal(n)| else width
  }

  /** A number is written without a zero in front. */
  lemma {:induction false} NoZeroInFront(n: nat)
    ensures |Decimal(n)| > 1 ==> Decimal(n)[0] != '0'
  {
    if n >= 10 {
      NoZeroInFront(n / 10);
      if n < 100 {
        assert |Decimal(n / 10)| == 1;
      }
    }
  }

  /** A padded number is as long as the width, or longer if it has more digits, and it is still that number. */
  lemma {:induction false} PadIs(width: nat, n: nat)
    ensures |Pad(width, n)| == Digits(width, n)
    ensures AllDigits(Pad(width, n)) && Value(Pad(width, n)) == n
  {
    DecimalValue(n);
    if |Decimal(n)| < width {
      ZerosValue(width - |Decimal(n)|, Decimal(n));
    }
  }

  lemma {:induction false} DecimalGrows(m: nat, n: nat)
    requires m <= n
    ensures |Decimal(m)| <= |Decimal(n)|
  {
    if n >= 10 && m >= 10 {
      DecimalGrows(m / 10, n / 10);
    }
  }

  /** A number is read from its digits, with or without a plus sign, unless it is larger than the largest integer. */
  lemma {:induction false} AtoiIs(s: string, n: nat)
    ensures Atoi(s) == Some(n) <==> n <= MAX_INT && exists d :: Spells(d, n) && (s == d || s == ['+'] + d)
  {
    if exists d :: Spells(d, n) && (s == d || s == ['+'] + d) {
      var d :| Spells(d, n) && (s == d || s == ['+'] + d);
      assert IsDigit(d[0]);
      assert s == d || s[1..] == d;
    }
    if Atoi(s) == Some(n) {
      var d := if s != "" && s[0] == '+' then s[1..] else s;
      assert Spells(d, n) && (s == d || s == ['+'] + d);
    }
  }

  ghost predicate Spells(d: string, n: nat)
  {
    d != "" && AllDigits(d) && Value(d) == n
  }

  /* ---- Quoting ---- */

  const SPECIAL: string := "\\.+*?()|[]{}^$"

  /** What a quoted text stands for; nothing if a special character is not quoted. */
  function Unquote(s: string): Option<string>
  {
    if s == "" then Some("")
    else if s[0] == '\\' then
      if |s| >= 2 && s[1] in SPECIAL && Unquote(s[2..]).Some? then Some([s[1]] + Unquote(s[2..]).value) else None
    else if s[0] !in SPECIAL && Unquote(s[1..]).Some? then Some([s[0]] + Unquote(s[1..]).value)
    else None
  }

  lemma {:induction false} QuoteFirst(c: char, s: string)
    ensures QuoteMeta([c] + s) == (if c in SPECIAL then ['\\', c] else [c]) + QuoteMeta(s)
  {
    assert ([c] + s)[1..] == s;
  }

  /** A quoted name stands for the name itself. */
  lemma {:induction false} QuoteRoundTrip(s: string)
    ensures Unquote(QuoteMeta(s)) == Some(s)
  {
    if s != "" {
      var rest := QuoteMeta(s[1..]);
      QuoteRoundTrip(s[1..]);
      assert s == [s[0]] + s[1..];
      QuoteFirst(s[0], s[1..]);
      if s[0] in SPECIAL {
        assert QuoteMeta(s)[2..] == rest && QuoteMeta(s)[1] == s[0];
      } else {
        assert QuoteMeta(s)[1..] == rest;
      }
    }
  }

  lemma {:induction false} AppendQuoted(x: string, y: string, z: string)
    ensures x + (y + z) == x + y + z
  {
  }

  lemma {:induction false} QuoteAppend(a: string, b: string)
    ensures QuoteMeta(a + b) == QuoteMeta(a) + QuoteMeta(b)
  {
    if a == "" {
      assert a + b == b;
    } else {
      var c, rest := a[0], a[1..];
      QuoteAppend(rest, b);
      assert a == [c] + rest;
      AppendQuoted([c], rest, b);
      QuoteFirst(c, rest + b);
      QuoteFirst(c, rest);
      AppendQuoted(if c in SPECIAL then ['\\', c] else [c], QuoteMeta(rest), QuoteMeta(b));
    }
  }

  lemma {:induction false} QuoteDigits(d: string)
    requires AllDigits(d)
    ensures QuoteMeta(d) == d
  {
    if d != "" {
      QuoteDigits(d[1..]);
      assert d == [d[0]] + d[1..];
      assert IsDigit(d[0]);
      QuoteFirst(d[0], d[1..]);
    }
  }

  /* ---- Bracket groups ---- */

  /** A bracket that opens, and the first one that closes after it, on the same line. */
  ghost predicate GroupAt(s: string, i: int, j: int)
  {
    && 0 <= i < j < |s| && s[i] == '[' && s[j] == ']'
    && forall k :: i < k < j ==> s[k] != ']' && s[k] != '\n'
  }

  lemma {:induction false} CloseIs(s: string, from: nat, j: nat)
    ensures CloseFrom(s, from) == Some(j) <==>
      from <= j < |s| && s[j] == ']' && forall k :: from <= k < j ==> s[k] != ']' && s[k] != '\n'
    decreases |s| - from
  {
    if from < |s| && s[from] != '\n' && s[from] != ']' {
      CloseIs(s, from + 1, j);
    }
  }

  ghost predicate NoGroupAt(s: string, i: int)
  {
    forall j :: !GroupAt(s, i, j)
  }

  /** The group that is expanded is the first one. */
  lemma {:induction false} GroupIs(s: string, from: nat, i: nat, j: nat)
    ensures FindGroup(s, from) == Some((i, j)) <==>
      from <= i && GroupAt(s, i, j) && forall k :: from <= k < i ==> NoGroupAt(s, k)
    decreases |s| - from
  {
    if from < |s| {
      OpensIs(s, from);
      GroupIs(s, from + 1, i, j);
      CloseIs(s, from + 1, j);
      if from < i && NoGroupAt(s, from) && forall k :: from + 1 <= k < i ==> NoGroupAt(s, k) {
        assert forall k :: from <= k < i ==> NoGroupAt(s, k);
      }
    }
  }

  lemma {:induction false} OpensIs(s: string, i: nat)
    requires i < |s|
    ensures s[i] == '[' && CloseFrom(s, i + 1).Some? <==> !NoGroupAt(s, i)
  {
    if s[i] == '[' && CloseFrom(s, i + 1).Some? {
      CloseIs(s, i + 1, CloseFrom(s, i + 1).value);
      assert GroupAt(s, i, CloseFrom(s, i + 1).value);
    }
    if !NoGroupAt(s, i) {
      var j: int :| GroupAt(s, i, j);
      CloseIs(s, i + 1, j);
    }
  }

  lemma {:induction false} NoneFound(s: string, from: nat)
    requires forall i :: from <= i < |s| ==> NoGroupAt(s, i)
    ensures FindGroup(s, from).None?
    decreases |s| - from
  {
    if from < |s| {
      OpensIs(s, from);
      NoneFound(s, from + 1);
    }
  }

  lemma {:induction false} DelimitOne(s: string)
    requires ',' !in s && !Opens(s)
    ensures Delimit(s) == Some(s)
  {
    SplitPlain(s, ',');
    assert Regroup([s], 1, 0) == Some([]);
    assert [s] + [] == [s];
    assert Regroup([s], 0, 0) == Some([s]);
  }

  lemma {:induction false} PieceSkipped(s: string)
    requires ',' !in s && '|' !in s && !Opens(s) && ExpandPiece(s, CountOpen(s)) == Some([])
    ensures Parse(s) == Hosts([])
  {
    DelimitOne(s);
    ExpandsAsOne(s);
  }

  /** Brackets that are no group: the text is skipped. */
  lemma {:induction false} NoGroupSkipped(s: string)
    requires ',' !in s && '|' !in s && '[' in s && ']' in s && forall i :: 0 <= i < |s| ==> NoGroupAt(s, i)
    ensures Parse(s) == Hosts([])
  {
    NoneFound(s, 0);
    PieceSkipped(s);
  }

  /** Text in brackets without anything that separates or ends it. */
  predicate Inner(x: string)
  {
    ',' !in x && '-' !in x && '[' !in x && ']' !in x && '|' !in x && '\n' !in x
  }

  lemma {:induction false} OneGroup(prefix: string, x: string, s: string)
    requires '[' !in prefix && Inner(x) && s == prefix + ['['] + x + [']']
    ensures FindGroup(s, 0) == Some((|prefix|, |prefix| + 1 + |x|)) && s[|prefix|+1..|prefix|+1+|x|] == x
  {
    var i, j := |prefix|, |prefix| + 1 + |x|;
    assert forall k :: i < k < j ==> s[k] == x[k-i-1];
    assert GroupAt(s, i, j);
    forall k | 0 <= k < i ensures NoGroupAt(s, k) {
      assert s[k] == prefix[k];
    }
    GroupIs(s, 0, i, j);
  }

  lemma {:induction false} NoNumber(piece: string, group: string, x: string, n: nat)
    requires GroupOf(group, piece, n) && Inner(x) && Atoi(x).None?
    ensures Collect(RangeResults(piece, group, Split(x, ','), n)) == Some([])
  {
    SplitPlain(x, ',');
    SplitPlain(x, '-');
    assert ExpandRange(piece, group, x, n) == Some([]);
    assert RangeResults(piece, group, [x], n) == [ExpandRange(piece, group, x, n)];
    CollectOne(ExpandRange(piece, group, x, n));
  }

  lemma {:induction false} NoNumberPiece(s: string, i: nat, j: nat, x: string, n: nat)
    requires '[' in s && CountOpen(s) <= n && FindGroup(s, 0) == Some((i, j)) && s[i+1..j] == x
    requires Inner(x) && Atoi(x).None?
    ensures ExpandPiece(s, n) == Some([])
  {
    PieceGroup(s, i, j, n);
    NoNumber(s, s[i..j+1], x, n);
  }

  lemma {:induction false} InBrackets(prefix: string, x: string, s: string)
    requires GoodName(prefix) && Inner(x) && s == prefix + ['['] + x + [']']
    ensures ',' !in s && '|' !in s && '[' in s && !Opens(s)
  {
    assert s[|prefix|] == '[' && s[|s|-1] == ']';
  }

  /** A group that is not a number stands for no names. */
  lemma {:induction false} NoNumberSkipped(prefix: string, x: string, s: string)
    requires GoodName(prefix) && Inner(x) && Atoi(x).None? && s == prefix + ['['] + x + [']']
    ensures Parse(s) == Hosts([])
  {
    InBrackets(prefix, x, s);
    OneGroup(prefix, x, s);
    NoNumberPiece(s, |prefix|, |prefix| + 1 + |x|, x, CountOpen(s));
    PieceSkipped(s);
  }

  /* ---- The names of one range ---- */

  /** The name is the prefix and a number of so many digits. */
  ghost predicate Numbered(name: string, prefix: string, width: nat, n: nat)
  {
    exists d :: name == QuoteMeta(prefix) + d && |d| == width && AllDigits(d) && Value(d) == n
  }

  lemma {:induction false} OneNumber(prefix: string, ranges: seq<Range>, d: string)
    requires GoodName(prefix) && GoodRanges(ranges) && AllDigits(d)
    ensures var h := Ranged(prefix, ranges, Plain(""));
      After(h, d) == Plain(prefix + d) && HostNames(After(h, d)) == [QuoteMeta(prefix) + d]
  {
    assert Subst(Plain(""), GroupText(ranges), d) == Plain("");
    assert prefix + d + "" == prefix + d;
    DigitsPlain(d);
    QuoteAppend(prefix, d);
    QuoteDigits(d);
  }

  ghost predicate Prefixed(names: seq<string>, quoted: string, ds: seq<string>)
  {
    |names| == |ds| && forall k :: 0 <= k < |ds| ==> names[k] == quoted + ds[k]
  }

  lemma {:induction false} EachNumbered(prefix: string, ranges: seq<Range>, ds: seq<string>)
    requires GoodName(prefix) && GoodRanges(ranges) && AllNumbers(ds)
    ensures Prefixed(EachNames(Ranged(prefix, ranges, Plain("")), ds), QuoteMeta(prefix), ds)
    decreases |ds|
  {
    if ds != [] {
      EachNumbered(prefix, ranges, ds[..|ds|-1]);
      OneNumber(prefix, ranges, ds[|ds|-1]);
    }
  }

  lemma {:induction false} TextsAre(width: nat, start: nat, end: nat)
    requires start <= end
    ensures |NumberTexts(width, start, end)| == end - start
    ensures forall k :: 0 <= k < end - start ==> NumberTexts(width, start, end)[k] == Pad(width, start + k)
  {
  }

  lemma {:induction false} RangeNumbersAre(r: Range)
    requires GoodRange(r) && First(r) <= Last(r) <= MAX_INT
    ensures Numbers([r]) == RangeNumbers(r) && |RangeNumbers(r)| == Last(r) - First(r) + 1
    ensures forall k :: 0 <= k < |RangeNumbers(r)| ==> RangeNumbers(r)[k] == Pad(|r.lo|, First(r) + k)
  {
    assert [r][..0] == [];
    assert [] + RangeNumbers(r) == RangeNumbers(r);
    TextsAre(|r.lo|, First(r), Last(r) + 1);
  }

  lemma {:induction false} RangeText(prefix: string, lo: string, hi: string)
    ensures Render(Ranged(prefix, [Range(lo, Some(hi))], Plain(""))) == prefix + ['['] + lo + ['-'] + hi + [']']
  {
    assert RenderRanges([Range(lo, Some(hi))]) == [lo + ['-'] + hi];
  }

  lemma {:induction false} RangeReturns(prefix: string, r: Range)
    requires GoodName(prefix) && GoodRange(r) && Last(r) < MAX_INT
    ensures var h := Ranged(prefix, [r], Plain("")); GoodHost(h) && Delimitable(h) && !HostEndless(h)
  {
    var h := Ranged(prefix, [r], Plain(""));
    assert Groups(h) == [[r]];
    assert Groups(Plain("")) == [];
    HostEndlessIs(h);
  }

  lemma {:induction false} RangeParsed(prefix: string, r: Range)
    requires GoodName(prefix) && GoodRange(r) && r.hi.Some? && First(r) <= Last(r) < MAX_INT
    ensures AllNumbers(RangeNumbers(r))
    ensures Parse(prefix + ['['] + r.lo + ['-'] + r.hi.value + [']'])
      == Hosts(EachNames(Ranged(prefix, [r], Plain("")), RangeNumbers(r)))
  {
    var h := Ranged(prefix, [r], Plain(""));
    RangeText(prefix, r.lo, r.hi.value);
    RangeReturns(prefix, r);
    OneHost(h);
    RangeNumbersAre(r);
    NumbersDigits([r]);
  }

  lemma {:induction false} NumberSpelled(prefix: string, r: Range, k: nat)
    requires GoodName(prefix) && GoodRange(r) && First(r) <= Last(r) <= MAX_INT
    ensures var n := First(r) + k; Numbered(QuoteMeta(prefix) + Pad(|r.lo|, n), prefix, Digits(|r.lo|, n), n)
  {
    PadIs(|r.lo|, First(r) + k);
  }

  /** One name for each number from first to last, in order, padded to a width. */
  ghost predicate Spelled(names: seq<string>, prefix: string, width: nat, first: nat, last: nat)
  {
    && |names| == last - first + 1
    && forall k :: 0 <= k < |names| ==> Numbered(names[k], prefix, Digits(width, first + k), first + k)
  }

  /** With a first number as long as the last one's digits, all are of that length. */
  lemma {:induction false} OneLength(names: seq<string>, prefix: string, width: nat, first: nat, last: nat)
    requires Spelled(names, prefix, width, first, last) && |Decimal(last)| <= width
    ensures forall k :: 0 <= k < |names| ==> Numbered(names[k], prefix, width, first + k)
  {
    forall k | 0 <= k < |names| ensures Numbered(names[k], prefix, width, first + k) {
      DecimalGrows(first + k, last);
    }
  }

  lemma {:induction false} PrefixedSpelled(names: seq<string>, prefix: string, r: Range, ds: seq<string>)
    requires GoodName(prefix) && GoodRange(r) && First(r) <= Last(r) < MAX_INT && |ds| == Last(r) - First(r) + 1
    requires forall k :: 0 <= k < |ds| ==> ds[k] == Pad(|r.lo|, First(r) + k)
    requires Prefixed(names, QuoteMeta(prefix), ds)
    ensures Spelled(names, prefix, |r.lo|, First(r), Last(r))
  {
    forall k | 0 <= k < |names| ensures Numbered(names[k], prefix, Digits(|r.lo|, First(r) + k), First(r) + k) {
      NumberSpelled(prefix, r, k);
    }
  }

  lemma {:induction false} NamesNumbered(prefix: string, r: Range, names: seq<string>)
    requires GoodName(prefix) && GoodRange(r) && First(r) <= Last(r) < MAX_INT
    requires AllNumbers(RangeNumbers(r)) && names == EachNames(Ranged(prefix, [r], Plain("")), RangeNumbers(r))
    ensures Spelled(names, prefix, |r.lo|, First(r), Last(r))
  {
    RangeNumbersAre(r);
    EachNumbered(prefix, [r], RangeNumbers(r));
    PrefixedSpelled(names, prefix, r, RangeNumbers(r));
  }

  /** Every number of a range, in order, padded to the length of its first number. */
  lemma {:induction false} RangeNamed(prefix: string, r: Range) returns (names: seq<string>)
    requires GoodName(prefix) && GoodRange(r) && r.hi.Some?
    requires First(r) <= Last(r) < MAX_INT
    ensures Parse(prefix + ['['] + r.lo + ['-'] + r.hi.value + [']']) == Hosts(names)
    ensures Spelled(names, prefix, |r.lo|, First(r), Last(r))
    ensures |Decimal(Last(r))| <= |r.lo| ==> forall k :: 0 <= k < |names| ==>
      Numbered(names[k], prefix, |r.lo|, First(r) + k)
  {
    RangeParsed(prefix, r);
    names := EachNames(Ranged(prefix, [r], Plain("")), RangeNumbers(r));
    NamesNumbered(prefix, r, names);
    if |Decimal(Last(r))| <= |r.lo| {
      OneLength(names, prefix, |r.lo|, First(r), Last(r));
    }
  }

  /** A name without brackets stands for itself, quoted. */
  lemma {:induction false} PlainParsed(name: string)
    requires GoodName(name)
    ensures Parse(name) == Hosts([QuoteMeta(name)])
  {
    assert Groups(Plain(name)) == [];
    OneHost(Plain(name));
  }

  /* ---- Two texts ---- */

  lemma {:induction false} PaddedNumbers(r: Range)
    requires r == Range("00", Some("01"))
    ensures GoodRange(r) && First(r) == 0 && Last(r) == 1
    ensures Numbers([r]) == RangeNumbers(r) == ["00", "01"]
  {
    assert "00"[..1] == "0" && "01"[..1] == "0" && "0"[..0] == "";
    assert Value("0") == 0;
    assert Value("00") == 0 && Value("01") == 1;
    RangeNumbersAre(r);
    assert Zeros(1) == "0";
    assert Pad(2, 0) == "00" && Pad(2, 1) == "01";
  }

  lemma {:induction false} QuotedA(s: string, t: string)
    requires s == "a00" && t == "a01"
    ensures QuoteMeta("a") + "00" == s && QuoteMeta("a") + "01" == t
  {
    QuotePlain("a");
  }

  lemma {:induction false} PaddedNames(r: Range, s: string, t: string)
    requires r == Range("00", Some("01")) && s == "a00" && t == "a01"
    requires GoodRange(r) && AllNumbers(RangeNumbers(r)) && RangeNumbers(r) == ["00", "01"]
    ensures EachNames(Ranged("a", [r], Plain("")), RangeNumbers(r)) == [s, t]
  {
    EachNumbered("a", [r], RangeNumbers(r));
    QuotedA(s, t);
  }

  lemma {:induction false} PaddedText(lo: string, hi: string, text: string)
    requires lo == "00" && hi == "01" && text == "a[00-01]"
    ensures "a" + ['['] + lo + ['-'] + hi + [']'] == text
  {
  }

  lemma {:induction false} RangeParsedTo(prefix: string, r: Range, text: string, names: seq<string>)
    requires GoodName(prefix) && GoodRange(r) && r.hi.Some? && First(r) <= Last(r) < MAX_INT
    requires text == prefix + ['['] + r.lo + ['-'] + r.hi.value + [']'] && AllNumbers(RangeNumbers(r))
    requires EachNames(Ranged(prefix, [r], Plain("")), RangeNumbers(r)) == names
    ensures Parse(text) == Hosts(names)
  {
    RangeParsed(prefix, r);
  }

  lemma {:induction false} ZerosKeptIn(r: Range, text: string, s: string, t: string)
    requires r == Range("00", Some("01")) && text == "a[00-01]" && s == "a00" && t == "a01"
    ensures Parse(text) == Hosts([s, t])
  {
    PaddedNumbers(r);
    NumbersDigits([r]);
    PaddedNames(r, s, t);
    PaddedText(r.lo, r.hi.value, text);
    RangeParsedTo("a", r, text, [s, t]);
  }

  /** The numbers keep the zeros of the first one. */
  lemma {:induction false} ZerosKept(text: string, s: string, t: string)
    requires text == "a[00-01]" && s == "a00" && t == "a01"
    ensures Parse(text) == Hosts([s, t])
  {
    ZerosKeptIn(Range("00", Some("01")), text, s, t);
  }

  lemma {:induction false} DotText(s: string)
    requires s == "a.b"
    ensures QuoteMeta(s) == "a\\.b"
  {
    QuoteFirst('b', "");
    QuoteFirst('.', "b");
    QuoteFirst('a', ".b");
    assert ['b'] + "" == "b" && ['.'] + "b" == ".b" && ['a'] + ".b" == s;
  }

  /** A dot in a name is quoted. */
  lemma {:induction false} DotQuoted(text: string)
    requires text == "a.b"
    ensures Parse(text) == Hosts(["a\\.b"])
  {
    DotText(text);
    PlainParsed(text);
  }
}
