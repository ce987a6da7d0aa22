/** Grouping raw BPF map entries by compute unit (pkg/collector/ebpf.go). */
module EbpfAggregation {
  import opened EbpfCaches
  import opened Options
  import opened Seqs
  import opened Sums
  import opened Texts
  import opened Words

  /* ---- Group-by-sum, for any kind of entry ---- */

  /** The sum of the amounts of the entries that go to key k. */
  function Charged<E, K(==)>(entries: seq<E>, keyOf: E -> Option<K>, amount: E -> nat, k: K): nat
  {
    if entries == [] then 0
    else Charged(entries[..|entries|-1], keyOf, amount, k)
           + if keyOf(entries[|entries|-1]) == Some(k) then amount(entries[|entries|-1]) else 0
  }

  /** The sum of the amounts of all entries that go to some key. */
  function Accepted<E, K>(entries: seq<E>, keyOf: E -> Option<K>, amount: E -> nat): nat
  {
    if entries == [] then 0
    else Accepted(entries[..|entries|-1], keyOf, amount)
           + if keyOf(entries[|entries|-1]).Some? then amount(entries[|entries|-1]) else 0
  }

  ghost predicate HasKey<E, K>(entries: seq<E>, keyOf: E -> Option<K>, k: K)
  {
    exists i :: 0 <= i < |entries| && keyOf(entries[i]) == Some(k)
  }

  /** The result has exactly the keys that occur, and at each the wrapped sum of one component. */
  ghost predicate Grouped<E, K(!new), V>(agg: map<K, V>, entries: seq<E>, keyOf: E -> Option<K>, amount: E -> nat,
      part: V -> Word)
  {
    forall k :: (k in agg <==> HasKey(entries, keyOf, k))
      && (k in agg ==> part(agg[k]) == Charged(entries, keyOf, amount, k) % WORD)
  }

  lemma {:induction false} HasKeySnoc<E, K>(entries: seq<E>, e: E, keyOf: E -> Option<K>, k: K)
    ensures HasKey(entries + [e], keyOf, k) <==> HasKey(entries, keyOf, k) || keyOf(e) == Some(k)
  {
    var s := entries + [e];
    if HasKey(entries, keyOf, k) {
      var i :| 0 <= i < |entries| && keyOf(entries[i]) == Some(k);
      assert s[i] == entries[i];
    }
    if keyOf(e) == Some(k) {
      assert s[|entries|] == e;
    }
  }

  lemma {:induction false} ChargedSnoc<E, K>(entries: seq<E>, e: E, keyOf: E -> Option<K>, amount: E -> nat, k: K)
    ensures Charged(entries + [e], keyOf, amount, k) == Charged(entries, keyOf, amount, k)
      + if keyOf(e) == Some(k) then amount(e) else 0
  {
    assert (entries + [e])[..|entries|] == entries;
  }

  lemma {:induction false} NotCharged<E, K>(entries: seq<E>, keyOf: E -> Option<K>, amount: E -> nat, k: K)
    requires !HasKey(entries, keyOf, k)
    ensures Charged(entries, keyOf, amount, k) == 0
  {
    if entries != [] {
      var n := |entries| - 1;
      assert entries == entries[..n] + [entries[n]];
      HasKeySnoc(entries[..n], entries[n], keyOf, k);
      NotCharged(entries[..n], keyOf, amount, k);
    }
  }

  /** The sum of the amounts of the entries of one kind. */
  function SumWhere<E>(entries: seq<E>, which: E -> bool, amount: E -> nat): nat
  {
    if entries == [] then 0
    else SumWhere(entries[..|entries|-1], which, amount)
           + if which(entries[|entries|-1]) then amount(entries[|entries|-1]) else 0
  }

  ghost predicate Any<E>(entries: seq<E>, which: E -> bool)
  {
    exists i :: 0 <= i < |entries| && which(entries[i])
  }

  /** What goes to a key, from the entries that go there. */
  lemma {:induction false} ChargedWhere<E(!new), K>(entries: seq<E>, keyOf: E -> Option<K>, amount: E -> nat, k: K,
      which: E -> bool)
    requires forall e :: which(e) <==> keyOf(e) == Some(k)
    ensures Charged(entries, keyOf, amount, k) == SumWhere(entries, which, amount)
    ensures HasKey(entries, keyOf, k) <==> Any(entries, which)
  {
    if entries != [] {
      ChargedWhere(entries[..|entries|-1], keyOf, amount, k, which);
    }
  }

  /** What one entry does to the result keeps it grouped. */
  lemma {:induction false} GroupStep<E, K(!new), V>(
    agg: map<K, V>, next: map<K, V>, entries: seq<E>, e: E, keyOf: E -> Option<K>, amount: E -> nat, part: V -> Word)
    requires Grouped(agg, entries, keyOf, amount, part)
    requires amount(e) < WORD
    requires keyOf(e).None? ==> next == agg
    requires keyOf(e).Some? ==> var k := keyOf(e).value;
      && next.Keys == agg.Keys + {k} && (forall j :: j in agg && j != k ==> next[j] == agg[j])
      && part(next[k]) == if k in agg then Add(part(agg[k]), amount(e)) else amount(e)
    ensures Grouped(next, entries + [e], keyOf, amount, part)
  {
    forall k
      ensures k in next <==> HasKey(entries + [e], keyOf, k)
      ensures k in next ==> part(next[k]) == Charged(entries + [e], keyOf, amount, k) % WORD
    {
      HasKeySnoc(entries, e, keyOf, k);
      ChargedSnoc(entries, e, keyOf, amount, k);
      if keyOf(e) == Some(k) {
        AddMod(Charged(entries, keyOf, amount, k), amount(e));
        if k !in agg {
          NotCharged(entries, keyOf, amount, k);
        }
      }
    }
  }

  /** Conservation: what all keys are charged together is what was accepted. */
  lemma {:induction false} ChargedIsAccepted<E, K(!new)>(entries: seq<E>, keyOf: E -> Option<K>, amount: E -> nat,
      keys: set<K>)
    requires forall i :: 0 <= i < |entries| && keyOf(entries[i]).Some? ==> keyOf(entries[i]).value in keys
    ensures Sum(keys, k => Charged(entries, keyOf, amount, k)) == Accepted(entries, keyOf, amount)
  {
    var f := k => Charged(entries, keyOf, amount, k);
    if entries == [] {
      SumZero(keys, f);
    } else {
      var n := |entries| - 1;
      var e := entries[n];
      ChargedIsAccepted(entries[..n], keyOf, amount, keys);
      var g := k => Charged(entries[..n], keyOf, amount, k);
      if keyOf(e).Some? {
        SumChange(keys, g, f, keyOf(e).value);
      } else {
        SumSame(keys, f, g);
      }
    }
  }

  /** One component of the result as a function of all keys. */
  function Total<K(!new), V>(agg: map<K, V>, part: V -> Word): K -> int
  {
    k => if k in agg then part(agg[k]) else 0
  }

  lemma {:induction false} SumWraps<K(!new)>(keys: set<K>, f: K -> int, g: K -> int)
    requires forall k :: k in keys ==> g(k) >= 0 && f(k) == g(k) % WORD
    ensures 0 <= Sum(keys, f) && 0 <= Sum(keys, g) && Sum(keys, f) % WORD == Sum(keys, g) % WORD
    decreases |keys|
  {
    if keys != {} {
      var k :| k in keys;
      SumPick(keys, f, k);
      SumPick(keys, g, k);
      SumWraps(keys - {k}, f, g);
      AddMod(g(k), Sum(keys - {k}, f));
      AddMod(Sum(keys - {k}, f), g(k));
      AddMod(Sum(keys - {k}, g), g(k));
    }
  }

  /** All totals of a result together are what was accepted, up to whole turns of the 64-bit words. */
  lemma {:induction false} GroupedConserves<E, K(!new), V>(
    agg: map<K, V>, entries: seq<E>, keyOf: E -> Option<K>, amount: E -> nat, part: V -> Word)
    requires Grouped(agg, entries, keyOf, amount, part)
    ensures Sum(agg.Keys, Total(agg, part)) % WORD == Accepted(entries, keyOf, amount) % WORD
  {
    GroupedAccepts(agg, entries, keyOf, amount, part);
    SumWraps(agg.Keys, Total(agg, part), k => Charged(entries, keyOf, amount, k));
  }

  /** Together they are exactly what was accepted when and only when no key was charged a whole word. */
  lemma {:induction false} ConservedExactly<E, K(!new), V>(
    agg: map<K, V>, entries: seq<E>, keyOf: E -> Option<K>, amount: E -> nat, part: V -> Word)
    requires Grouped(agg, entries, keyOf, amount, part)
    ensures Sum(agg.Keys, Total(agg, part)) == Accepted(entries, keyOf, amount) <==>
      forall k :: k in agg ==> Charged(entries, keyOf, amount, k) < WORD
    ensures Accepted(entries, keyOf, amount) < WORD ==>
      Sum(agg.Keys, Total(agg, part)) == Accepted(entries, keyOf, amount)
  {
    GroupedAccepts(agg, entries, keyOf, amount, part);
    SumAtMost(agg.Keys, Total(agg, part), k => Charged(entries, keyOf, amount, k));
    forall k ensures Charged(entries, keyOf, amount, k) <= Accepted(entries, keyOf, amount) {
      ChargedAtMost(entries, keyOf, amount, k);
    }
  }

  lemma {:induction false} ChargedAtMost<E, K>(entries: seq<E>, keyOf: E -> Option<K>, amount: E -> nat, k: K)
    ensures Charged(entries, keyOf, amount, k) <= Accepted(entries, keyOf, amount)
  {
    if entries != [] {
      ChargedAtMost(entries[..|entries|-1], keyOf, amount, k);
    }
  }

  lemma {:induction false} GroupedAccepts<E, K(!new), V>(
    agg: map<K, V>, entries: seq<E>, keyOf: E -> Option<K>, amount: E -> nat, part: V -> Word)
    requires Grouped(agg, entries, keyOf, amount, part)
    ensures Sum(agg.Keys, k => Charged(entries, keyOf, amount, k)) == Accepted(entries, keyOf, amount)
  {
    forall i | 0 <= i < |entries| && keyOf(entries[i]).Some?
      ensures keyOf(entries[i]).value in agg.Keys
    {
      assert HasKey(entries, keyOf, keyOf(entries[i]).value);
    }
    ChargedIsAccepted(entries, keyOf, amount, agg.Keys);
  }

  /** The order in which the kernel map is walked does not matter. */
  lemma {:induction false} OrderFree<E(!new), K>(s: seq<E>, t: seq<E>, keyOf: E -> Option<K>, amount: E -> nat, k: K)
    requires multiset(s) == multiset(t)
    ensures Charged(s, keyOf, amount, k) == Charged(t, keyOf, amount, k)
    decreases |s|
  {
    if s == [] {
      assert |multiset(t)| == 0;
    } else {
      var n, e := |s| - 1, s[|s|-1];
      assert s == s[..n] + [e];
      assert e in multiset(s);
      var i :| 0 <= i < |t| && t[i] == e;
      assert t == t[..i] + [e] + t[i+1..];
      var u := t[..i] + t[i+1..];
      assert multiset(s[..n]) == multiset(s) - multiset{e};
      assert multiset(u) == multiset(t) - multiset{e};
      OrderFree(s[..n], u, keyOf, amount, k);
      ChargedInsert(t[..i], t[i+1..], e, keyOf, amount, k);
    }
  }

  lemma {:induction false} ChargedInsert<E, K>(a: seq<E>, b: seq<E>, e: E, keyOf: E -> Option<K>, amount: E -> nat,
      k: K)
    ensures Charged(a + [e] + b, keyOf, amount, k) == Charged(a + b, keyOf, amount, k)
      + if keyOf(e) == Some(k) then amount(e) else 0
  {
    if b == [] {
      assert a + [e] + b == a + [e] && a + b == a;
      ChargedSnoc(a, e, keyOf, amount, k);
    } else {
      var n, x := |b| - 1, b[|b|-1];
      ChargedInsert(a, b[..n], e, keyOf, amount, k);
      assert a + [e] + b == a + [e] + b[..n] + [x] && a + b == a + b[..n] + [x];
      ChargedSnoc(a + [e] + b[..n], x, keyOf, amount, k);
      ChargedSnoc(a + b[..n], x, keyOf, amount, k);
    }
  }

  /* ---- The three kinds of maps ---- */

  datatype VfsKey = VfsKey(cid: nat, mnt: string)
  datatype PromVfsKey = PromVfsKey(uuid: string, mount: string)
  datatype RwEvent = RwEvent(bytes: Word, calls: Word, errors: Word)

  datatype InodeEvent = InodeEvent(calls: Word, errors: Word)

  datatype NetKey = NetKey(cid: nat, proto: nat, fam: nat)
  datatype PromNetKey = PromNetKey(uuid: string, proto: string, family: string)
  datatype NetEvent = NetEvent(packets: Word, bytes: Word)

  /** A fixed-size name field up to its first NUL. */
  function ByteSliceToString(s: string): string
  {
    if s == "" || s[0] == '\0' then "" else [s[0]] + ByteSliceToString(s[1..])
  }

  /** The name is the field without the first NUL and what follows it. */
  ghost predicate NameIn(field: string, name: string)
  {
    name <= field && '\0' !in name && (name == field || field[|name|] == '\0')
  }

  lemma {:induction false} NameIs(field: string, name: string)
    ensures NameIn(field, name) <==> name == ByteSliceToString(field)
  {
    if field != "" && field[0] != '\0' {
      if name == "" {
        assert !NameIn(field, name);
      } else {
        NameIs(field[1..], name[1..]);
        NameNext(field, name);
      }
    }
  }

  lemma {:induction false} NameNext(field: string, name: string)
    requires field != "" && name != "" && field[0] != '\0'
    ensures NameIn(field, name) <==> field[0] == name[0] && NameIn(field[1..], name[1..])
  {
    var f, n := field[1..], name[1..];
    assert field == [field[0]] + f && name == [name[0]] + n;
    assert name <= field <==> field[0] == name[0] && n <= f;
    assert '\0' in name <==> name[0] == '\0' || '\0' in n;
  }

  predicate Contains(s: string, sub: string)
  {
    sub <= s || (s != "" && Contains(s[1..], sub))
  }

  lemma {:induction false} OccursNext(sub: string, s: string)
    requires s != "" && !(sub <= s)
    ensures Occurs(sub, s) <==> Occurs(sub, s[1..])
  {
    if Occurs(sub, s[1..]) {
      var i :| OccursAt(sub, s[1..], i);
      assert s[1..][i..i+|sub|] == s[i+1..i+1+|sub|];
      assert OccursAt(sub, s, i + 1);
    }
    if Occurs(sub, s) {
      var i :| OccursAt(sub, s, i);
      assert s[0..|sub|] == s[..|sub|];
      assert s[1..][i-1..i-1+|sub|] == s[i..i+|sub|];
      assert OccursAt(sub, s[1..], i - 1);
    }
  }

  lemma {:induction false} ContainsIs(s: string, sub: string)
    ensures Contains(s, sub) <==> Occurs(sub, s)
  {
    if sub <= s {
      assert OccursAt(sub, s, 0);
    } else if s != "" {
      ContainsIs(s[1..], sub);
      OccursNext(sub, s);
    }
  }

  /** containsMount: all mounts are allowed unless some are configured. */
  method ContainsMount(mount: string, mountPoints: seq<string>) returns (b: bool)
    ensures b <==> Allowed(mount, mountPoints)
  {
    forall i | 0 <= i < |mountPoints| ensures Contains(mount, mountPoints[i]) <==> Occurs(mountPoints[i], mount) {
      ContainsIs(mount, mountPoints[i]);
    }
    if |mountPoints| <= 0 {
      return true;
    }
    for i := 0 to |mountPoints|
      invariant forall k :: 0 <= k < i ==> !Contains(mount, mountPoints[k])
    {
      if Contains(mount, mountPoints[i]) {
        return true;
      }
    }
    return false;
  }

  ghost predicate Allowed(mount: string, mountPoints: seq<string>)
  {
    mountPoints == [] || exists i :: 0 <= i < |mountPoints| && Occurs(mountPoints[i], mount)
  }

  /** The uuid the cache has for an inode, or no text. */
  ghost predicate OwnedBy(ids: map<nat, string>, i: nat, uuid: string)
  {
    if uuid == "" then i in ids ==> ids[i] == "" else i in ids && ids[i] == uuid
  }

  function Owner(ids: map<nat, string>, i: nat): string
  {
    if i in ids then ids[i] else ""
  }

  function ProtoName(proto: nat): string
  {
    if proto == 6 then "tcp" else if proto == 17 then "udp" else ""
  }

  function FamilyName(fam: nat): string
  {
    if fam == 2 then "ipv4" else if fam == 10 then "ipv6" else ""
  }

  /** Where an entry of a read or write map goes: nowhere unless its cgroup is active and its mount allowed. */
  ghost function VfsKeyOf(c: Caches, mountPoints: seq<string>, e: (VfsKey, RwEvent)): Option<PromVfsKey>
  {
    var mount := ByteSliceToString(e.0.mnt);
    if e.0.cid in c.active && Allowed(mount, mountPoints) then Some(PromVfsKey(Owner(c.ids, e.0.cid), mount)) else None
  }

  ghost function InodeKeyOf(c: Caches, e: (nat, InodeEvent)): Option<string>
  {
    if e.0 in c.active then Some(Owner(c.ids, e.0)) else None
  }

  ghost function NetKeyOf(c: Caches, e: (NetKey, NetEvent)): Option<PromNetKey>
  {
    if e.0.cid in c.active then Some(PromNetKey(Owner(c.ids, e.0.cid), ProtoName(e.0.proto), FamilyName(e.0.fam)))
      else None
  }

  ghost function VfsKeys(c: Caches, mountPoints: seq<string>): ((VfsKey, RwEvent)) -> Option<PromVfsKey>
  {
    e => VfsKeyOf(c, mountPoints, e)
  }

  ghost function InodeKeys(c: Caches): ((nat, InodeEvent)) -> Option<string>
  {
    e => InodeKeyOf(c, e)
  }

  ghost function NetKeys(c: Caches): ((NetKey, NetEvent)) -> Option<PromNetKey>
  {
    e => NetKeyOf(c, e)
  }

  function RwBytes(e: (VfsKey, RwEvent)): nat { e.1.bytes }
  function RwCalls(e: (VfsKey, RwEvent)): nat { e.1.calls }
  function RwErrors(e: (VfsKey, RwEvent)): nat { e.1.errors }
  function BytesPart(v: RwEvent): Word { v.bytes }
  function CallsPart(v: RwEvent): Word { v.calls }
  function ErrorsPart(v: RwEvent): Word { v.errors }

  function InodeCalls(e: (nat, InodeEvent)): nat { e.1.calls }
  function InodeErrors(e: (nat, InodeEvent)): nat { e.1.errors }
  function InodeCallsPart(v: InodeEvent): Word { v.calls }
  function InodeErrorsPart(v: InodeEvent): Word { v.errors }

  function NetPackets(e: (NetKey, NetEvent)): nat { e.1.packets }
  function NetBytes(e: (NetKey, NetEvent)): nat { e.1.bytes }
  function PacketsPart(v: NetEvent): Word { v.packets }
  function NetBytesPart(v: NetEvent): Word { v.bytes }

  ghost predicate RwGrouped(agg: map<PromVfsKey, RwEvent>, entries: seq<(VfsKey, RwEvent)>, c: Caches,
      mountPoints: seq<string>)
  {
    && Grouped(agg, entries, VfsKeys(c, mountPoints), RwBytes, BytesPart)
    && Grouped(agg, entries, VfsKeys(c, mountPoints), RwCalls, CallsPart)
    && Grouped(agg, entries, VfsKeys(c, mountPoints), RwErrors, ErrorsPart)
  }

  /** The values at one key are the wrapped sums over its entries; there is no value without an entry. */
  ghost predicate RwAt(agg: map<PromVfsKey, RwEvent>, key: PromVfsKey, entries: seq<(VfsKey, RwEvent)>,
      which: ((VfsKey, RwEvent)) -> bool)
  {
    && (key in agg <==> Any(entries, which))
    && (key in agg ==>
          && agg[key].bytes == SumWhere(entries, which, RwBytes) % WORD
          && agg[key].calls == SumWhere(entries, which, RwCalls) % WORD
          && agg[key].errors == SumWhere(entries, which, RwErrors) % WORD)
  }

  /** The entries of an active inode of this owner, under a name field with this mount, which is allowed. */
  ghost function RwEntries(c: Caches, mountPoints: seq<string>, uuid: string, mount: string):
      ((VfsKey, RwEvent)) -> bool
  {
    (e: (VfsKey, RwEvent)) => e.0.cid in c.active && OwnedBy(c.ids, e.0.cid, uuid)
      && NameIn(e.0.mnt, mount) && Allowed(mount, mountPoints)
  }

  ghost predicate RwCharged(agg: map<PromVfsKey, RwEvent>, entries: seq<(VfsKey, RwEvent)>, c: Caches,
      mountPoints: seq<string>)
  {
    forall uuid, mount :: RwAt(agg, PromVfsKey(uuid, mount), entries, RwEntries(c, mountPoints, uuid, mount))
  }

  lemma {:induction false} RwCharges(agg: map<PromVfsKey, RwEvent>, entries: seq<(VfsKey, RwEvent)>, c: Caches,
      mountPoints: seq<string>)
    requires RwGrouped(agg, entries, c, mountPoints)
    ensures RwCharged(agg, entries, c, mountPoints)
  {
    forall uuid, mount
      ensures RwAt(agg, PromVfsKey(uuid, mount), entries, RwEntries(c, mountPoints, uuid, mount))
    {
      var k, keys, which := PromVfsKey(uuid, mount), VfsKeys(c, mountPoints), RwEntries(c, mountPoints, uuid, mount);
      forall e ensures which(e) <==> keys(e) == Some(k) {
        NameIs(e.0.mnt, mount);
      }
      ChargedWhere(entries, keys, RwBytes, k, which);
      ChargedWhere(entries, keys, RwCalls, k, which);
      ChargedWhere(entries, keys, RwErrors, k, which);
    }
  }

  /** The loop of aggVFSStats over one read or write map, its entries in the order they are delivered. */
  method AggReadWrite(c: Caches, mountPoints: seq<string>, entries: seq<(VfsKey, RwEvent)>)
      returns (agg: map<PromVfsKey, RwEvent>)
    ensures RwGrouped(agg, entries, c, mountPoints) && RwCharged(agg, entries, c, mountPoints)
  {
    agg := map[];
    for i := 0 to |entries|
      invariant RwGrouped(agg, entries[..i], c, mountPoints)
    {
      agg := AddReadWrite(c, mountPoints, entries, i, agg);
    }
    PrefixAll(entries);
    RwCharges(agg, entries, c, mountPoints);
  }

  method AddReadWrite(c: Caches, mountPoints: seq<string>, entries: seq<(VfsKey, RwEvent)>, i: nat,
      before: map<PromVfsKey, RwEvent>)
    returns (agg: map<PromVfsKey, RwEvent>)
    requires i < |entries| && RwGrouped(before, entries[..i], c, mountPoints)
    ensures RwGrouped(agg, entries[..i+1], c, mountPoints)
  {
    var (rwKey, rwValue) := entries[i];
    agg := before;
    if rwKey.cid in c.active {
      var mount := ByteSliceToString(rwKey.mnt);
      var contained := ContainsMount(mount, mountPoints);
      if contained {
        var promKey := PromVfsKey(Owner(c.ids, rwKey.cid), mount);
        if promKey in agg {
          var v := agg[promKey];
          agg := agg[promKey := RwEvent(Add(v.bytes, rwValue.bytes), Add(v.calls, rwValue.calls),
              Add(v.errors, rwValue.errors))];
        } else {
          agg := agg[promKey := rwValue];
        }
      }
    }
    PrefixStep(entries, i);
    GroupStep(before, agg, entries[..i], entries[i], VfsKeys(c, mountPoints), RwBytes, BytesPart);
    GroupStep(before, agg, entries[..i], entries[i], VfsKeys(c, mountPoints), RwCalls, CallsPart);
    GroupStep(before, agg, entries[..i], entries[i], VfsKeys(c, mountPoints), RwErrors, ErrorsPart);
  }

  ghost predicate InodeGrouped(agg: map<string, InodeEvent>, entries: seq<(nat, InodeEvent)>, c: Caches)
  {
    && Grouped(agg, entries, InodeKeys(c), InodeCalls, InodeCallsPart)
    && Grouped(agg, entries, InodeKeys(c), InodeErrors, InodeErrorsPart)
  }

  /** At each uuid the wrapped sums over the entries of its active inodes. */
  ghost predicate InodeCharged(agg: map<string, InodeEvent>, entries: seq<(nat, InodeEvent)>, c: Caches)
  {
    forall uuid :: InodeAt(agg, uuid, entries, InodeEntries(c, uuid))
  }

  ghost predicate InodeAt(agg: map<string, InodeEvent>, uuid: string, entries: seq<(nat, InodeEvent)>,
      which: ((nat, InodeEvent)) -> bool)
  {
    && (uuid in agg <==> Any(entries, which))
    && (uuid in agg ==>
          && agg[uuid].calls == SumWhere(entries, which, InodeCalls) % WORD
          && agg[uuid].errors == SumWhere(entries, which, InodeErrors) % WORD)
  }

  ghost function InodeEntries(c: Caches, uuid: string): ((nat, InodeEvent)) -> bool
  {
    (e: (nat, InodeEvent)) => e.0 in c.active && OwnedBy(c.ids, e.0, uuid)
  }

  lemma {:induction false} InodeCharges(agg: map<string, InodeEvent>, entries: seq<(nat, InodeEvent)>, c: Caches)
    requires InodeGrouped(agg, entries, c)
    ensures InodeCharged(agg, entries, c)
  {
    forall uuid ensures InodeAt(agg, uuid, entries, InodeEntries(c, uuid)) {
      ChargedWhere(entries, InodeKeys(c), InodeCalls, uuid, InodeEntries(c, uuid));
      ChargedWhere(entries, InodeKeys(c), InodeErrors, uuid, InodeEntries(c, uuid));
    }
  }

  /** The loop of aggVFSStats over any other map. */
  method AggInode(c: Caches, entries: seq<(nat, InodeEvent)>) returns (agg: map<string, InodeEvent>)
    ensures InodeGrouped(agg, entries, c) && InodeCharged(agg, entries, c)
  {
    agg := map[];
    for i := 0 to |entries|
      invariant InodeGrouped(agg, entries[..i], c)
    {
      var (inodeKey, inodeValue) := entries[i];
      ghost var before := agg;
      if inodeKey in c.active {
        var uuid := Owner(c.ids, inodeKey);
        if uuid in agg {
          agg := agg[uuid := InodeEvent(Add(agg[uuid].calls, inodeValue.calls),
              Add(agg[uuid].errors, inodeValue.errors))];
        } else {
          agg := agg[uuid := inodeValue];
        }
      }
      PrefixStep(entries, i);
      GroupStep(before, agg, entries[..i], entries[i], InodeKeys(c), InodeCalls, InodeCallsPart);
      GroupStep(before, agg, entries[..i], entries[i], InodeKeys(c), InodeErrors, InodeErrorsPart);
    }
    PrefixAll(entries);
    InodeCharges(agg, entries, c);
  }

  ghost predicate NetGrouped(agg: map<PromNetKey, NetEvent>, entries: seq<(NetKey, NetEvent)>, c: Caches)
  {
    && Grouped(agg, entries, NetKeys(c), NetPackets, PacketsPart)
    && Grouped(agg, entries, NetKeys(c), NetBytes, NetBytesPart)
  }

  /** The names of protocol and address family numbers; any other number has no name. */
  predicate Protocol(number: nat, name: string)
  {
    (number == 6 && name == "tcp") || (number == 17 && name == "udp") || (number != 6 && number != 17 && name == "")
  }

  predicate Family(number: nat, name: string)
  {
    (number == 2 && name == "ipv4") || (number == 10 && name == "ipv6") || (number != 2 && number != 10 && name == "")
  }

  /** The entries of an active inode of this owner, with numbers of these names. */
  ghost function NetEntries(c: Caches, uuid: string, proto: string, family: string): ((NetKey, NetEvent)) -> bool
  {
    (e: (NetKey, NetEvent)) => e.0.cid in c.active && OwnedBy(c.ids, e.0.cid, uuid)
      && Protocol(e.0.proto, proto) && Family(e.0.fam, family)
  }

  /** The values at one key are the wrapped sums over its entries; there is no value without an entry. */
  ghost predicate NetAt(agg: map<PromNetKey, NetEvent>, key: PromNetKey, entries: seq<(NetKey, NetEvent)>,
      which: ((NetKey, NetEvent)) -> bool)
  {
    && (key in agg <==> Any(entries, which))
    && (key in agg ==>
          && agg[key].packets == SumWhere(entries, which, NetPackets) % WORD
          && agg[key].bytes == SumWhere(entries, which, NetBytes) % WORD)
  }

  ghost predicate NetCharged(agg: map<PromNetKey, NetEvent>, entries: seq<(NetKey, NetEvent)>, c: Caches)
  {
    forall uuid, proto, family ::
      NetAt(agg, PromNetKey(uuid, proto, family), entries, NetEntries(c, uuid, proto, family))
  }

  lemma {:induction false} NetCharges(agg: map<PromNetKey, NetEvent>, entries: seq<(NetKey, NetEvent)>, c: Caches)
    requires NetGrouped(agg, entries, c)
    ensures NetCharged(agg, entries, c)
  {
    forall uuid, proto, family
      ensures NetAt(agg, PromNetKey(uuid, proto, family), entries, NetEntries(c, uuid, proto, family))
    {
      var k, which := PromNetKey(uuid, proto, family), NetEntries(c, uuid, proto, family);
      ChargedWhere(entries, NetKeys(c), NetPackets, k, which);
      ChargedWhere(entries, NetKeys(c), NetBytes, k, which);
    }
  }

  /** The entries of one protocol and family number that an active inode of the cgroup has. */
  ghost function Numbered(c: Caches, uuid: string, proto: nat, fam: nat): ((NetKey, NetEvent)) -> bool
  {
    (e: (NetKey, NetEvent)) => e.0.proto == proto && e.0.fam == fam
      && e.0.cid in c.active && e.0.cid in c.ids && c.ids[e.0.cid] == uuid
  }

  /** TCP and UDP over IPv4 and IPv6, by their numbers: each is under its own names, and nothing else is. */
  lemma {:induction false} TrafficByNumber(agg: map<PromNetKey, NetEvent>, entries: seq<(NetKey, NetEvent)>, c: Caches,
      uuid: string)
    requires NetCharged(agg, entries, c) && uuid != ""
    ensures NetAt(agg, PromNetKey(uuid, "tcp", "ipv4"), entries, Numbered(c, uuid, 6, 2))
    ensures NetAt(agg, PromNetKey(uuid, "tcp", "ipv6"), entries, Numbered(c, uuid, 6, 10))
    ensures NetAt(agg, PromNetKey(uuid, "udp", "ipv4"), entries, Numbered(c, uuid, 17, 2))
    ensures NetAt(agg, PromNetKey(uuid, "udp", "ipv6"), entries, Numbered(c, uuid, 17, 10))
  {
    SameTraffic(agg, entries, c, uuid, "tcp", "ipv4", 6, 2);
    SameTraffic(agg, entries, c, uuid, "tcp", "ipv6", 6, 10);
    SameTraffic(agg, entries, c, uuid, "udp", "ipv4", 17, 2);
    SameTraffic(agg, entries, c, uuid, "udp", "ipv6", 17, 10);
  }

  lemma {:induction false} SameTraffic(agg: map<PromNetKey, NetEvent>, entries: seq<(NetKey, NetEvent)>, c: Caches,
      uuid: string, proto: string, family: string, p: nat, f: nat)
    requires NetCharged(agg, entries, c) && uuid != ""
    requires forall n :: Protocol(n, proto) <==> n == p
    requires forall n :: Family(n, family) <==> n == f
    ensures NetAt(agg, PromNetKey(uuid, proto, family), entries, Numbered(c, uuid, p, f))
  {
    var named, numbered := NetEntries(c, uuid, proto, family), Numbered(c, uuid, p, f);
    assert NetAt(agg, PromNetKey(uuid, proto, family), entries, named);
    SameSums(entries, named, numbered, NetPackets);
    SameSums(entries, named, numbered, NetBytes);
  }

  lemma {:induction false} SameSums<E(!new)>(entries: seq<E>, f: E -> bool, g: E -> bool, amount: E -> nat)
    requires forall e :: f(e) <==> g(e)
    ensures SumWhere(entries, f, amount) == SumWhere(entries, g, amount)
  {
    if entries != [] {
      SameSums(entries[..|entries|-1], f, g, amount);
    }
  }

  /** The loop of aggNetStats over one map. */
  method AggNet(c: Caches, entries: seq<(NetKey, NetEvent)>) returns (agg: map<PromNetKey, NetEvent>)
    ensures NetGrouped(agg, entries, c) && NetCharged(agg, entries, c)
  {
    agg := map[];
    for i := 0 to |entries|
      invariant NetGrouped(agg, entries[..i], c)
    {
      var (key, value) := entries[i];
      ghost var before := agg;
      if key.cid in c.active {
        var promKey := PromNetKey(Owner(c.ids, key.cid), ProtoName(key.proto), FamilyName(key.fam));
        if promKey in agg {
          agg := agg[promKey := NetEvent(Add(agg[promKey].packets, value.packets),
              Add(agg[promKey].bytes, value.bytes))];
        } else {
          agg := agg[promKey := value];
        }
      }
      PrefixStep(entries, i);
      GroupStep(before, agg, entries[..i], entries[i], NetKeys(c), NetPackets, PacketsPart);
      GroupStep(before, agg, entries[..i], entries[i], NetKeys(c), NetBytes, NetBytesPart);
    }
    PrefixAll(entries);
    NetCharges(agg, entries, c);
  }

  /* ---- Who is charged ---- */

  /** The inode belongs to a listed path, and the uuid is that path's owner. */
  ghost predicate Owned(u: Tree, inode: nat, uuid: string)
  {
    exists a :: a in u.listed && a.0 in u.inodes && u.inodes[a.0] == inode && a.1 == uuid
  }

  /**
   * With caches as a scan leaves them, every accepted event is charged to the owner of the path its inode belongs to.
   * Inode zero, which stands for a path that could not be read, is excluded: no cgroup has it.
   */
  lemma {:induction false} ChargedToOwner(u: Tree, d: Caches, c: Caches, mountPoints: seq<string>, e: (VfsKey, RwEvent))
    requires d == Discover(c, u.listed, Lookup(u)) && ProperTree(u) && Agree(d, u)
    requires e.0.cid != 0 && VfsKeyOf(d, mountPoints, e).Some?
    ensures Owned(u, e.0.cid, VfsKeyOf(d, mountPoints, e).value.uuid)
  {
    ActiveInodeOwned(c, u, e.0.cid);
  }

  lemma {:induction false} InodeChargedToOwner(u: Tree, d: Caches, c: Caches, e: (nat, InodeEvent))
    requires d == Discover(c, u.listed, Lookup(u)) && ProperTree(u) && Agree(d, u)
    requires e.0 != 0 && InodeKeyOf(d, e).Some?
    ensures Owned(u, e.0, InodeKeyOf(d, e).value)
  {
    ActiveInodeOwned(c, u, e.0);
  }

  lemma {:induction false} NetChargedToOwner(u: Tree, d: Caches, c: Caches, e: (NetKey, NetEvent))
    requires d == Discover(c, u.listed, Lookup(u)) && ProperTree(u) && Agree(d, u)
    requires e.0.cid != 0 && NetKeyOf(d, e).Some?
    ensures Owned(u, e.0.cid, NetKeyOf(d, e).value.uuid)
  {
    ActiveInodeOwned(c, u, e.0.cid);
  }
}
