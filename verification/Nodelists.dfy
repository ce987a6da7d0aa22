/**
 * Expansion of SLURM node lists: the delimiter between nodes, bracket groups, and the recursion over the numbers of
 * their ranges (internal/common/helpers.go).
 */
module Nodelists {
  import opened Counters
  import opened Options
  import opened Seqs
  import opened Texts

  /* ---- Pieces of Go's libraries ---- */

  /** regexp.QuoteMeta. */
  function QuoteMeta(s: string): string
  {
    if s == "" then "" else (if s[0] in "\\.+*?()|[]{}^$" then ['\\', s[0]] else [s[0]]) + QuoteMeta(s[1..])
  }

  function Zeros(n: nat): string
  {
    seq(n, i => '0')
  }

  /** fmt's %0*d for a number that is not negative. */
  function Pad(width: nat, n: nat): string
  {
    var d := Decimal(n);
    if |d| < width then Zeros(width - |d|) + d else d
  }

  /** The same for any number; a minus sign counts as one character. */
  function Format(width: nat, i: int): string
  {
    if i < 0 then ['-'] + Pad(if width > 0 then width - 1 else 0, -i) else Pad(width, i)
  }

  /** strconv.Atoi for text without a minus sign: the text here is a part between minus signs. */
  function Atoi(s: string): (r: Option<nat>)
    ensures r.Some? ==> r.value <= MAX_INT
  {
    var d := if s != "" && s[0] == '+' then s[1..] else s;
    if d != "" && AllDigits(d) && Value(d) <= MAX_INT then Some(Value(d)) else None
  }

  /** strings.ReplaceAll. */
  function ReplaceAll(s: string, old': string, new': string): string
    requires old' != ""
  {
    if |s| < |old'| then s
    else if old' <= s then new' + ReplaceAll(s[|old'|..], old', new')
    else [s[0]] + ReplaceAll(s[1..], old', new')
  }

  /** Where a bracket group opened before position j closes: at the first ']' unless the line ends before it. */
  function CloseFrom(s: string, j: nat): (r: Option<nat>)
    ensures r.Some? ==> j <= r.value < |s| && s[r.value] == ']' && forall i :: j <= i < r.value ==> s[i] != ']'
    decreases |s| - j
  {
    if j >= |s| || s[j] == '\n' then None else if s[j] == ']' then Some(j) else CloseFrom(s, j + 1)
  }

  /** The first match of the pattern for a bracket group, as the positions of its brackets. */
  function FindGroup(s: string, i: nat): (r: Option<(nat, nat)>)
    ensures r.Some? ==> i <= r.value.0 < r.value.1 < |s| && s[r.value.0] == '[' && s[r.value.1] == ']'
    decreases |s| - i
  {
    if i >= |s| then None
    else if s[i] == '[' && CloseFrom(s, i + 1).Some? then Some((i, CloseFrom(s, i + 1).value))
    else FindGroup(s, i + 1)
  }

  /* ---- Expansion ---- */

  function CountOpen(s: string): nat
  {
    if s == "" then 0 else (if s[0] == '[' then 1 else 0) + CountOpen(s[1..])
  }

  lemma {:induction false} CountAppend(a: string, b: string)
    ensures CountOpen(a + b) == CountOpen(a) + CountOpen(b)
  {
    if a == "" {
      assert a + b == b;
    } else {
      assert (a + b)[1..] == a[1..] + b;
      CountAppend(a[1..], b);
    }
  }

  lemma {:induction false} CountNone(s: string)
    requires '[' !in s
    ensures CountOpen(s) == 0
  {
    if s != "" {
      CountNone(s[1..]);
    }
  }

  /** A bracket group of a piece that has at most n opening brackets. */
  ghost predicate GroupOf(group: string, piece: string, n: nat)
  {
    CountOpen(piece) <= n && group != "" && group[0] == '[' && Occurs(group, piece)
  }

  /** Every replacement removes a bracket: this is why the recursion ends. */
  lemma {:induction false} ReplaceFalls(s: string, m: string, d: string)
    requires m != "" && m[0] == '[' && '[' !in d
    ensures CountOpen(ReplaceAll(s, m, d)) <= CountOpen(s)
    ensures Occurs(m, s) ==> CountOpen(ReplaceAll(s, m, d)) < CountOpen(s)
  {
    if |s| < |m| {
    } else if m <= s {
      var rest := s[|m|..];
      ReplaceFalls(rest, m, d);
      CountNone(d);
      CountAppend(d, ReplaceAll(rest, m, d));
      assert s[..|m|] == m && s == s[..|m|] + rest;
      CountAppend(m, rest);
    } else {
      ReplaceFalls(s[1..], m, d);
      var t := ReplaceAll(s[1..], m, d);
      assert ([s[0]] + t)[1..] == t;
      if Occurs(m, s) {
        var i :| OccursAt(m, s, i);
        assert s[0..|m|] == s[..|m|];
        assert i != 0;
        assert s[1..][i-1..i-1+|m|] == s[i..i+|m|];
        assert OccursAt(m, s[1..], i - 1);
      }
    }
  }

  lemma {:induction false} SplitCount(s: string, sep: char)
    requires sep != '['
    ensures forall p :: p in Split(s, sep) ==> CountOpen(p) <= CountOpen(s)
  {
    if s != "" {
      SplitCount(s[1..], sep);
      var r := Split(s[1..], sep);
      if s[0] != sep {
        assert ([s[0]] + r[0])[1..] == r[0];
      }
    }
  }

  lemma {:induction false} PadPlain(width: nat, n: nat)
    ensures AllDigits(Pad(width, n)) && '[' !in Pad(width, n)
  {
    DecimalValue(n);
    assert forall i :: 0 <= i < |Pad(width, n)| ==> IsDigit(Pad(width, n)[i]);
  }

  lemma {:induction false} FormatPlain(width: nat, i: int)
    ensures '[' !in Format(width, i)
  {
    if i < 0 {
      var d := Pad(if width > 0 then width - 1 else 0, -i);
      PadPlain(if width > 0 then width - 1 else 0, -i);
      assert Format(width, i) == ['-'] + d;
    } else {
      PadPlain(width, i);
    }
  }

  /** The recursive call is on text with strictly fewer opening brackets. */
  lemma {:induction false} BracketsFall(piece: string, group: string, width: nat, i: int, n: nat)
    requires GroupOf(group, piece, n)
    ensures CountOpen(ReplaceAll(piece, group, Format(width, i))) < CountOpen(piece) <= n
  {
    FormatPlain(width, i);
    ReplaceFalls(piece, group, Format(width, i));
  }

  /** Names collected so far; None if some expansion never returns. */
  type Names = Option<seq<string>>

  function Cat(a: Names, b: Names): Names
  {
    if a.Some? && b.Some? then Some(a.value + b.value) else None
  }

  /** The results of a loop, appended; nothing if one of them never returns. */
  function Collect(results: seq<Names>): Names
  {
    if results == [] then Some([]) else Cat(Collect(results[..|results|-1]), results[|results|-1])
  }

  lemma {:induction false} CollectStuck(results: seq<Names>, i: nat)
    requires i < |results| && results[i].None?
    ensures Collect(results).None?
  {
    if i < |results| - 1 {
      CollectStuck(results[..|results|-1], i);
    }
  }

  lemma {:induction false} CollectNext(results: seq<Names>, i: nat)
    requires i < |results|
    ensures Collect(results[..i+1]) == Cat(Collect(results[..i]), results[i])
  {
    assert results[..i+1][..i] == results[..i];
  }

  /** expandNodelist. */
  ghost function Expand(s: string): Names
    decreases CountOpen(s), 6
  {
    SplitCount(s, '|');
    Collect(PieceResults(Split(s, '|'), CountOpen(s)))
  }

  /** The loop over the nodes; n bounds their brackets. */
  ghost function PieceResults(pieces: seq<string>, n: nat): (r: seq<Names>)
    requires forall p :: p in pieces ==> CountOpen(p) <= n
    ensures |r| == |pieces|
    decreases n, 5
  {
    seq(|pieces|, i requires 0 <= i < |pieces| => ExpandPiece(pieces[i], n))
  }

  ghost function ExpandPiece(piece: string, n: nat): Names
    requires CountOpen(piece) <= n
    decreases n, 4
  {
    if '[' !in piece then Some([QuoteMeta(piece)])
    else
      var g := FindGroup(piece, 0);
      if g.None? then Some([])
      else
        var (i, j) := g.value;
        assert OccursAt(piece[i..j+1], piece, i);
        Collect(RangeResults(piece, piece[i..j+1], Split(piece[i+1..j], ','), n))
  }

  /** The loop over the ranges of the first bracket group. */
  ghost function RangeResults(piece: string, group: string, ranges: seq<string>, n: nat): (r: seq<Names>)
    requires GroupOf(group, piece, n)
    ensures |r| == |ranges|
    decreases n, 3
  {
    seq(|ranges|, i requires 0 <= i < |ranges| => ExpandRange(piece, group, ranges[i], n))
  }

  /** One range: bounds that are not numbers are skipped, and a loop that is never left never returns. */
  ghost function ExpandRange(piece: string, group: string, range: string, n: nat): Names
    requires GroupOf(group, piece, n)
    decreases n, 2
  {
    var parts := Split(range, '-');
    var start, end := Atoi(parts[0]), Atoi(if |parts| == 1 then parts[0] else parts[1]);
    if start.None? || end.None? then Some([])
    else if !Leaves(start.value, end.value) then None
    else Collect(RoundResults(piece, group, |parts[0]|, start.value, Rounds(start.value, end.value), n))
  }

  /** The first k rounds of the loop over the numbers of a range. */
  ghost function RoundResults(piece: string, group: string, width: nat, start: int, k: nat, n: nat): (r: seq<Names>)
    requires GroupOf(group, piece, n)
    ensures |r| == k
    decreases n, 1
  {
    seq(k, i requires 0 <= i < k => ExpandNumber(piece, group, width, Counter(start, i), n))
  }

  /** One number: the recursive call. */
  ghost function ExpandNumber(piece: string, group: string, width: nat, i: int, n: nat): Names
    requires GroupOf(group, piece, n)
    decreases n, 0
  {
    BracketsFall(piece, group, width, i, n);
    Expand(ReplaceAll(piece, group, Format(width, i)))
  }

  lemma {:induction false} NumberExpands(piece: string, group: string, width: nat, i: int, n: nat)
    requires GroupOf(group, piece, n)
    ensures ExpandNumber(piece, group, width, i, n) == Expand(ReplaceAll(piece, group, Format(width, i)))
  {
  }

  /** expandNodelist as it runs; None where the source would count forever. */
  method ExpandNodelist(nodelistExp: string) returns (names: Names)
    ensures names == Expand(nodelistExp)
    decreases CountOpen(nodelistExp), 5
  {
    var nodeNames: seq<string> := [];
    var pieces := Split(nodelistExp, '|');
    SplitCount(nodelistExp, '|');
    ghost var results := PieceResults(pieces, CountOpen(nodelistExp));
    for i := 0 to |pieces|
      invariant Collect(results[..i]) == Some(nodeNames)
    {
      CollectNext(results, i);
      var more := ExpandNode(pieces[i], CountOpen(nodelistExp));
      if more.None? {
        CollectStuck(results, i);
        return None;
      }
      nodeNames := nodeNames + more.value;
    }
    PrefixAll(results);
    names := Some(nodeNames);
  }

  /** What a node with a bracket group expands to. */
  lemma {:induction false} PieceGroup(piece: string, i: nat, j: nat, n: nat)
    requires '[' in piece && CountOpen(piece) <= n && FindGroup(piece, 0) == Some((i, j))
    ensures GroupOf(piece[i..j+1], piece, n)
    ensures ExpandPiece(piece, n) == Collect(RangeResults(piece, piece[i..j+1], Split(piece[i+1..j], ','), n))
  {
    assert OccursAt(piece[i..j+1], piece, i);
  }

  /** The body of the loop over the nodes. */
  method ExpandNode(nodeexp: string, ghost n: nat) returns (names: Names)
    requires CountOpen(nodeexp) <= n
    ensures names == ExpandPiece(nodeexp, n)
    decreases n, 4
  {
    if '[' in nodeexp {
      var g := FindGroup(nodeexp, 0);
      if g.None? {
        return Some([]);
      }
      var (i, j) := g.value;
      PieceGroup(nodeexp, i, j, n);
      names := ExpandGroup(nodeexp, nodeexp[i..j+1], Split(nodeexp[i+1..j], ','), n);
    } else {
      names := Some([QuoteMeta(nodeexp)]);
    }
  }

  /** The loop over the ranges of a group. */
  method ExpandGroup(piece: string, group: string, ranges: seq<string>, ghost n: nat) returns (names: Names)
    requires GroupOf(group, piece, n)
    ensures names == Collect(RangeResults(piece, group, ranges, n))
    decreases n, 3
  {
    var nodeNames: seq<string> := [];
    ghost var results := RangeResults(piece, group, ranges, n);
    for i := 0 to |ranges|
      invariant Collect(results[..i]) == Some(nodeNames)
    {
      CollectNext(results, i);
      var more := ExpandSubMatch(piece, group, ranges[i], n);
      if more.None? {
        CollectStuck(results, i);
        return None;
      }
      nodeNames := nodeNames + more.value;
    }
    PrefixAll(results);
    names := Some(nodeNames);
  }

  /** One range: parse its bounds, then count. */
  method ExpandSubMatch(piece: string, group: string, subMatches: string, ghost n: nat) returns (names: Names)
    requires GroupOf(group, piece, n)
    ensures names == ExpandRange(piece, group, subMatches, n)
    decreases n, 2
  {
    var subMatch := Split(subMatches, '-');
    if |subMatch| == 1 {
      subMatch := subMatch + [subMatch[0]];
    }
    var startIdx, endIdx := Atoi(subMatch[0]), Atoi(subMatch[1]);
    if startIdx.None? || endIdx.None? {
      return Some([]);
    }
    LeavesExactly(startIdx.value, endIdx.value);
    if startIdx.value <= endIdx.value && endIdx.value == MAX_INT {
      return None;
    }
    names := ExpandCount(piece, group, |subMatch[0]|, startIdx.value, endIdx.value, n);
  }

  /** The loop over the numbers of a range. */
  method ExpandCount(piece: string, group: string, width: nat, startIdx: int, endIdx: int, ghost n: nat)
      returns (names: Names)
    requires GroupOf(group, piece, n) && Int64(startIdx) && Int64(endIdx) && Leaves(startIdx, endIdx)
    ensures names == Collect(RoundResults(piece, group, width, startIdx, Rounds(startIdx, endIdx), n))
    decreases n, 1
  {
    var nodeNames: seq<string> := [];
    var i := startIdx;
    ghost var k, rounds := 0, Rounds(startIdx, endIdx);
    ghost var results := RoundResults(piece, group, width, startIdx, rounds, n);
    LeavesExactly(startIdx, endIdx);
    RoundsAre(startIdx, endIdx);
    while i <= endIdx
      invariant k <= rounds && i == Counter(startIdx, k) == startIdx + k
      invariant Collect(results[..k]) == Some(nodeNames)
      decreases endIdx - i
    {
      CollectNext(results, k);
      var more := ExpandOne(piece, group, width, i, n);
      if more.None? {
        CollectStuck(results, k);
        return None;
      }
      nodeNames := nodeNames + more.value;
      i := Next(i);
      k := k + 1;
    }
    assert k == rounds;
    PrefixAll(results);
    names := Some(nodeNames);
  }

  /** One round: the recursive call. */
  method ExpandOne(piece: string, group: string, width: nat, i: int, ghost n: nat) returns (names: Names)
    requires GroupOf(group, piece, n)
    ensures names == ExpandNumber(piece, group, width, i, n)
    decreases n, 0
  {
    NumberExpands(piece, group, width, i, n);
    BracketsFall(piece, group, width, i, n);
    names := ExpandNodelist(ReplaceAll(piece, group, Format(width, i)));
  }

  /* ---- The delimiter of nodes ---- */

  predicate Opens(p: string)
  {
    '[' in p && ']' !in p
  }

  predicate Closes(p: string)
  {
    ']' in p && '[' !in p
  }

  /** The next part that closes a group, if there is one. */
  function FindClose(parts: seq<string>, i: nat): (r: Option<nat>)
    ensures r.Some? ==> i <= r.value < |parts| && Closes(parts[r.value])
    decreases |parts| - i
  {
    if i >= |parts| then None else if Closes(parts[i]) then Some(i) else FindClose(parts, i + 1)
  }

  /** The nodes from part idx on; idxEnd is the last part already swept in. None if the source runs off the slice. */
  function Regroup(parts: seq<string>, idx: nat, idxEnd: nat): Option<seq<string>>
    decreases |parts| - idx
  {
    if idx >= |parts| then Some([])
    else if Opens(parts[idx]) then
      var e := FindClose(parts, idx + 1);
      if e.None? then None
      else
        var r := Regroup(parts, idx + 1, e.value);
        if r.None? then None else Some([Join(parts[idx..e.value+1], ',')] + r.value)
    else if idx != 0 && idx <= idxEnd then Regroup(parts, idx + 1, idxEnd)
    else
      var r := Regroup(parts, idx + 1, idx);
      if r.None? then None else Some([parts[idx]] + r.value)
  }

  /** The replaced text, or nothing where the source panics. */
  function Delimit(s: string): Option<string>
  {
    var r := Regroup(Split(s, ','), 0, 0);
    if r.None? then None else Some(Join(r.value, '|'))
  }

  method ReplaceNodelistDelimiter(nodelistExp: string) returns (r: Option<string>)
    ensures r == Delimit(nodelistExp)
  {
    var parts := Split(nodelistExp, ',');
    var nodelist: seq<string> := [];
    var idxEnd: nat := 0;
    PrependNothing(Regroup(parts, 0, 0));
    for idx := 0 to |parts|
      invariant Regroup(parts, 0, 0) == Prepend(nodelist, Regroup(parts, idx, idxEnd))
    {
      if Opens(parts[idx]) {
        var e := NextClose(parts, idx + 1);
        if e.None? {
          return None;
        }
        idxEnd := e.value;
        PrependNext(nodelist, Join(parts[idx..idxEnd+1], ','), Regroup(parts, idx + 1, idxEnd));
        nodelist := nodelist + [Join(parts[idx..idxEnd+1], ',')];
      } else if idx != 0 && idx <= idxEnd {
        continue;
      } else {
        idxEnd := idx;
        PrependNext(nodelist, parts[idx], Regroup(parts, idx + 1, idxEnd));
        nodelist := nodelist + [parts[idx]];
      }
    }
    assert nodelist + [] == nodelist;
    r := Some(Join(nodelist, '|'));
  }

  /** The inner loop: keep matching until a part closes the group. */
  method NextClose(parts: seq<string>, from: nat) returns (e: Option<nat>)
    ensures e == FindClose(parts, from)
  {
    var idxEnd := from;
    while idxEnd < |parts| && !Closes(parts[idxEnd])
      invariant FindClose(parts, from) == FindClose(parts, idxEnd)
    {
      idxEnd := idxEnd + 1;
    }
    e := if idxEnd < |parts| then Some(idxEnd) else None;
  }

  function Prepend(a: seq<string>, b: Option<seq<string>>): Option<seq<string>>
  {
    if b.None? then None else Some(a + b.value)
  }

  lemma {:induction false} PrependNothing(b: Option<seq<string>>)
    ensures Prepend([], b) == b
  {
    if b.Some? {
      assert [] + b.value == b.value;
    }
  }

  lemma {:induction false} PrependNext(a: seq<string>, x: string, b: Option<seq<string>>)
    ensures Prepend(a, Prepend([x], b)) == Prepend(a + [x], b)
  {
    if b.Some? {
      assert a + ([x] + b.value) == a + [x] + b.value;
    }
  }

  /** What becomes of a call. */
  datatype Parsed = Hosts(names: seq<string>) | NeverReturns | Panics

  /** NodelistParser. */
  ghost function Parse(s: string): Parsed
  {
    var d := Delimit(s);
    if d.None? then Panics else Returned(Expand(d.value))
  }

  function Returned(names: Names): Parsed
  {
    if names.None? then NeverReturns else Hosts(names.value)
  }

  method NodelistParser(nodelistExp: string) returns (names: Parsed)
    ensures names == Parse(nodelistExp)
  {
    var d := ReplaceNodelistDelimiter(nodelistExp);
    if d.None? {
      return Panics;
    }
    var expanded := ExpandNodelist(d.value);
    names := Returned(expanded);
  }
}
