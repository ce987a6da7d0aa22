/**
 * How an order map is written: its entries, separated by commas, give an index to a device or to one of its instances
 * (pkg/collector/gpu.go).
 */
module OrderMaps {
  import opened GpuIndices
  import opened Options
  import opened Texts

  /* ---- Spaces ---- */

  predicate Blank(s: string)
  {
    forall i :: 0 <= i < |s| ==> IsSpace(s[i])
  }

  /** Text that neither starts nor ends with a space. */
  predicate Bare(s: string)
  {
    s != "" ==> !IsSpace(s[0]) && !IsSpace(s[|s|-1])
  }

  /** The text with spaces around it. */
  ghost predicate Padded(s: string, t: string)
  {
    Bare(t) && exists a, b :: Blank(a) && Blank(b) && s == a + t + b
  }

  lemma {:induction false} TrimBlank(s: string)
    requires Blank(s)
    ensures TrimSpace(s) == ""
  {
    if s != "" {
      TrimBlank(s[1..]);
    }
  }

  lemma {:induction false} TrimEnd(t: string, b: string)
    requires Bare(t) && t != "" && Blank(b)
    ensures TrimSpace(t + b) == t
    decreases |b|
  {
    if b == "" {
      assert t + b == t;
    } else {
      TrimEnd(t, b[..|b|-1]);
      assert (t + b)[..|t + b|-1] == t + b[..|b|-1];
    }
  }

  lemma {:induction false} TrimText(a: string, t: string, b: string)
    requires Bare(t) && t != "" && Blank(a) && Blank(b)
    ensures TrimSpace(a + (t + b)) == t
  {
    if a == "" {
      assert a + (t + b) == t + b;
      TrimEnd(t, b);
    } else {
      TrimText(a[1..], t, b);
      assert (a + (t + b))[1..] == a[1..] + (t + b);
    }
  }

  /** Trimming takes the spaces around a text away, and nothing else. */
  lemma {:induction false} TrimPadded(s: string, t: string)
    requires Padded(s, t)
    ensures TrimSpace(s) == t
  {
    var a, b :| Blank(a) && Blank(b) && s == a + t + b;
    if t == "" {
      assert s == a + b;
      TrimBlank(s);
    } else {
      assert s == a + (t + b);
      TrimText(a, t, b);
    }
  }

  /* ---- One entry ---- */

  /** Text without any of the separators. */
  predicate Field(s: string)
  {
    ',' !in s && ':' !in s && '.' !in s
  }

  /** The parts of an entry with spaces around them: `index:minor`, or `index:minor.instance`. */
  ghost predicate Written(token: string, e: Entry)
  {
    exists x, y, z :: WrittenAs(token, e, x, y, z)
  }

  ghost predicate WrittenAs(token: string, e: Entry, x: string, y: string, z: string)
  {
    && Field(x) && Field(y) && Field(z) && Padded(x, e.newIndex) && Padded(y, e.minor)
    && match e.inst
      case None => token == x + [':'] + y
      case Some(inst) => Padded(z, inst) && token == x + [':'] + (y + ['.'] + z)
  }

  lemma {:induction false} ColonSplits(x: string, rest: string)
    requires ':' !in x && ':' !in rest
    ensures Split(x + [':'] + rest, ':') == [x, rest]
  {
    SplitCons(x, rest, ':');
    SplitPlain(rest, ':');
  }

  lemma {:induction false} DotSplits(y: string, z: string)
    requires '.' !in y && '.' !in z
    ensures Split(y, '.') == [y] && Split(y + ['.'] + z, '.') == [y, z]
  {
    SplitCons(y, z, '.');
    SplitPlain(y, '.');
    SplitPlain(z, '.');
  }

  /** A written entry is read as it was meant. */
  lemma {:induction false} EntryRead(token: string, e: Entry)
    requires Written(token, e)
    ensures ParseEntry(token) == Some(e)
  {
    var x, y, z :| WrittenAs(token, e, x, y, z);
    TrimPadded(x, e.newIndex);
    TrimPadded(y, e.minor);
    DotSplits(y, z);
    if e.inst.Some? {
      TrimPadded(z, e.inst.value);
      ColonSplits(x, y + ['.'] + z);
    } else {
      ColonSplits(x, y);
    }
  }

  lemma {:induction false} SplitCount(s: string, sep: char)
    ensures |Split(s, sep)| > 1 <==> sep in s
  {
    if s != "" {
      SplitCount(s[1..], sep);
    }
  }

  /** Text is skipped when and only when it has no colon. */
  lemma {:induction false} SkippedExactly(token: string)
    ensures ParseEntry(token).None? <==> ':' !in token
  {
    SplitCount(token, ':');
  }

  /* ---- The whole map ---- */

  lemma {:induction false} EntriesRead(tokens: seq<string>, entries: seq<Entry>)
    requires |tokens| == |entries| && forall i :: 0 <= i < |tokens| ==> Written(tokens[i], entries[i])
    ensures ParseEntries(tokens) == entries
  {
    if tokens != [] {
      var n := |tokens| - 1;
      EntriesRead(tokens[..n], entries[..n]);
      EntryRead(tokens[n], entries[n]);
      assert entries == entries[..n] + [entries[n]];
    }
  }

  lemma {:induction false} WrittenPlain(token: string, e: Entry)
    requires Written(token, e)
    ensures ',' !in token && token != ""
  {
    var x, y, z :| WrittenAs(token, e, x, y, z);
  }

  /** Every entry of a written map is read, in order. */
  lemma {:induction false} OrderMapRead(tokens: seq<string>, entries: seq<Entry>)
    requires |tokens| == |entries| > 0 && forall i :: 0 <= i < |tokens| ==> Written(tokens[i], entries[i])
    ensures OrderEntries(Join(tokens, ',')) == entries
  {
    forall i | 0 <= i < |tokens| ensures ',' !in tokens[i] && tokens[i] != "" {
      WrittenPlain(tokens[i], entries[i]);
    }
    SplitJoin(tokens, ',');
    assert Join(tokens, ',') != "" by {
      if |tokens| > 1 {
        JoinWith(tokens, ',');
      }
    }
    EntriesRead(tokens, entries);
  }

  lemma {:induction false} BarePadded(s: string)
    requires Bare(s)
    ensures Padded(s, s) && Padded([' '] + s, s)
  {
    assert Blank("") && Blank([' ']);
    assert s == "" + s + "";
    assert [' '] + s == [' '] + s + "";
  }

  lemma {:induction false} InstanceWritten(token: string)
    requires token == "7:1.3"
    ensures Written(token, Entry("7", "1", Some("3")))
  {
    BarePadded("7");
    BarePadded("1");
    BarePadded("3");
    assert token == "7" + [':'] + ("1" + ['.'] + "3");
    assert WrittenAs(token, Entry("7", "1", Some("3")), "7", "1", "3");
  }

  lemma {:induction false} DeviceWritten(token: string)
    requires token == " 0:2"
    ensures Written(token, Entry("0", "2", None))
  {
    BarePadded("0");
    BarePadded("2");
    assert token == " 0" + [':'] + "2" && " 0" == [' '] + "0";
    assert WrittenAs(token, Entry("0", "2", None), " 0", "2", "");
  }

  /** Index 7 for instance 3 of device 1, and index 0 for device 2. */
  lemma {:induction false} TwoEntriesRead(text: string)
    requires text == "7:1.3, 0:2"
    ensures OrderEntries(text) == [Entry("7", "1", Some("3")), Entry("0", "2", None)]
  {
    InstanceWritten("7:1.3");
    DeviceWritten(" 0:2");
    OrderMapRead(["7:1.3", " 0:2"], [Entry("7", "1", Some("3")), Entry("0", "2", None)]);
    assert Join([" 0:2"], ',') == " 0:2";
    assert "7:1.3" + [','] + " 0:2" == text;
  }

  /* ---- Which entry counts ---- */

  /** The last entry that names the slot: its device's minor, and the instance if the entry has one. */
  ghost predicate LastFor(entries: seq<Entry>, minor: string, inst: Option<string>, k: int)
  {
    && 0 <= k < |entries| && entries[k].minor == minor && entries[k].inst == inst
    && forall j :: k < j < |entries| ==> entries[j].minor != minor || entries[j].inst != inst
  }

  ghost predicate NoneFor(entries: seq<Entry>, minor: string, inst: Option<string>)
  {
    forall k :: 0 <= k < |entries| ==> entries[k].minor != minor || entries[k].inst != inst
  }

  lemma {:induction false} NoEntryCounts(entries: seq<Entry>, minor: string, inst: Option<string>)
    ensures NewIndex(Name(minor, inst), entries).None? <==> NoneFor(entries, minor, inst)
  {
    if entries != [] {
      NoEntryCounts(entries[..|entries|-1], minor, inst);
    }
  }

  /** A slot gets the index of the last entry that names it. */
  lemma {:induction false} LastEntryCounts(entries: seq<Entry>, minor: string, inst: Option<string>, k: nat)
    requires LastFor(entries, minor, inst, k)
    ensures NewIndex(Name(minor, inst), entries) == Some(entries[k].newIndex)
  {
    var n := |entries| - 1;
    if k < n {
      assert LastFor(entries[..n], minor, inst, k);
      LastEntryCounts(entries[..n], minor, inst, k);
    }
  }
}
