/** Inode and path caches (pkg/collector/ebpf.go). */
module EbpfCaches {
  import opened Seqs

  datatype Cgroup = Cgroup(uuid: string, children: seq<string>)

  /** The collector's caches and the inodes of the paths seen in the current scan. */
  datatype Caches = Caches(ids: map<nat, string>, paths: map<string, nat>, active: seq<nat>)

  /** A Go map lookup: a path without an entry has inode zero. */
  function InodeOf(paths: map<string, nat>, path: string): nat
  {
    if path in paths then paths[path] else 0
  }

  /** The body of the scan for one path; lookup holds the paths whose inode can be read. */
  function Visit(c: Caches, uuid: string, path: string, lookup: map<string, nat>): Caches
  {
    var d := if path !in c.paths && path in lookup
             then c.(paths := c.paths[path := lookup[path]], ids := c.ids[lookup[path] := uuid]) else c;
    var inode := InodeOf(d.paths, path);
    d.(ids := if inode !in d.ids then d.ids[inode := uuid] else d.ids, active := d.active + [inode])
  }

  /** The (path, uuid) pairs of a scan, in order. */
  function Listed(cgroups: seq<Cgroup>): seq<(string, string)>
  {
    if cgroups == [] then []
    else
      var c := cgroups[|cgroups|-1];
      Listed(cgroups[..|cgroups|-1]) + Children(c, |c.children|)
  }

  function Children(c: Cgroup, n: nat): seq<(string, string)>
    requires n <= |c.children|
  {
    seq(n, i requires 0 <= i < n => (c.children[i], c.uuid))
  }

  function VisitAll(c: Caches, listed: seq<(string, string)>, lookup: map<string, nat>): Caches
  {
    if listed == [] then c
    else Visit(VisitAll(c, listed[..|listed|-1], lookup), listed[|listed|-1].1, listed[|listed|-1].0, lookup)
  }

  function PathsOf(listed: seq<(string, string)>): set<string>
  {
    set p | p in listed :: p.0
  }

  function UuidsOf(listed: seq<(string, string)>): set<string>
  {
    set p | p in listed :: p.1
  }

  function EvictIds(ids: map<nat, string>, uuids: set<string>): map<nat, string>
  {
    map i | i in ids && ids[i] in uuids :: ids[i]
  }

  function EvictPaths(paths: map<string, nat>, active: set<string>): map<string, nat>
  {
    map p | p in paths && p in active :: paths[p]
  }

  function Discover(c: Caches, listed: seq<(string, string)>, lookup: map<string, nat>): Caches
  {
    var d := VisitAll(c.(active := []), listed, lookup);
    d.(ids := EvictIds(d.ids, UuidsOf(listed)), paths := EvictPaths(d.paths, PathsOf(listed)))
  }

  class EbpfCollector {
    var cgroupIDUUIDCache: map<nat, string>
    var cgroupPathIDCache: map<string, nat>
    var activeCgroupInodes: seq<nat>

    function State(): Caches
      reads this
    {
      Caches(cgroupIDUUIDCache, cgroupPathIDCache, activeCgroupInodes)
    }

    /** discoverCgroups: visit every child of every cgroup, then evict what is no longer there. */
    method DiscoverCgroups(cgroups: seq<Cgroup>, lookup: map<string, nat>)
      modifies this
      ensures PathsScanned(old(State()), cgroups, lookup, State()) && IdsScanned(old(State()), cgroups, lookup, State())
      ensures AllFound(old(State()), cgroups, lookup, State()) <==> OneOwner(old(State()), cgroups, lookup)
      ensures State() == Discover(old(State()), Listed(cgroups), lookup)
    {
      activeCgroupInodes := [];
      ghost var start := State();
      var listed: seq<(string, string)> := [];
      for i := 0 to |cgroups|
        invariant listed == Listed(cgroups[..i]) && State() == VisitAll(start, listed, lookup)
      {
        assert cgroups[..i+1][..i] == cgroups[..i];
        listed := VisitChildren(cgroups[i], listed, lookup, start);
      }
      PrefixAll(cgroups);
      EvictCaches(UuidsOf(listed), PathsOf(listed));
      ScanIs(old(State()), cgroups, lookup);
      FoundExactly(old(State()), cgroups, lookup, State());
    }

    /** The loop over the children of one cgroup; what is listed so far names the active uuids and paths. */
    method VisitChildren(cgrp: Cgroup, before: seq<(string, string)>, lookup: map<string, nat>, ghost start: Caches)
      returns (listed: seq<(string, string)>)
      requires State() == VisitAll(start, before, lookup)
      modifies this
      ensures listed == before + Children(cgrp, |cgrp.children|)
      ensures State() == VisitAll(start, listed, lookup)
    {
      listed := before;
      for k := 0 to |cgrp.children|
        invariant listed == before + Children(cgrp, k)
        invariant State() == VisitAll(start, listed, lookup)
      {
        VisitPath(cgrp.uuid, cgrp.children[k], lookup);
        ListedNext(start, listed, cgrp.children[k], cgrp.uuid, lookup);
        listed := listed + [(cgrp.children[k], cgrp.uuid)];
      }
    }

    method VisitPath(uuid: string, path: string, lookup: map<string, nat>)
      modifies this
      ensures State() == Visit(old(State()), uuid, path, lookup)
    {
      if path !in cgroupPathIDCache {
        if path in lookup {
          cgroupPathIDCache := cgroupPathIDCache[path := lookup[path]];
          cgroupIDUUIDCache := cgroupIDUUIDCache[lookup[path] := uuid];
        }
      }
      if InodeOf(cgroupPathIDCache, path) !in cgroupIDUUIDCache {
        cgroupIDUUIDCache := cgroupIDUUIDCache[InodeOf(cgroupPathIDCache, path) := uuid];
      }
      activeCgroupInodes := activeCgroupInodes + [InodeOf(cgroupPathIDCache, path)];
    }

    /** The two eviction loops: IDs go by uuid, paths go by path. */
    method EvictCaches(uuids: set<string>, active: set<string>)
      modifies this
      ensures State() == old(State()).(
        ids := EvictIds(old(cgroupIDUUIDCache), uuids), paths := EvictPaths(old(cgroupPathIDCache), active))
    {
      var cids := cgroupIDUUIDCache.Keys;
      while cids != {}
        invariant State() == old(State()).(ids := cgroupIDUUIDCache)
        invariant EvictIds(cgroupIDUUIDCache, uuids) == EvictIds(old(cgroupIDUUIDCache), uuids)
        invariant forall i :: i in cgroupIDUUIDCache && i !in cids ==> cgroupIDUUIDCache[i] in uuids
        invariant forall i :: i in cids ==> i in cgroupIDUUIDCache
        decreases cids
      {
        var cid := Pick(cids);
        cids := cids - {cid};
        if cgroupIDUUIDCache[cid] !in uuids {
          cgroupIDUUIDCache := cgroupIDUUIDCache - {cid};
        }
      }
      assert cgroupIDUUIDCache == EvictIds(cgroupIDUUIDCache, uuids);
      var paths := cgroupPathIDCache.Keys;
      while paths != {}
        invariant State() == old(State()).(ids := EvictIds(old(cgroupIDUUIDCache), uuids), paths := cgroupPathIDCache)
        invariant EvictPaths(cgroupPathIDCache, active) == EvictPaths(old(cgroupPathIDCache), active)
        invariant forall p :: p in cgroupPathIDCache && p !in paths ==> p in active
        invariant forall p :: p in paths ==> p in cgroupPathIDCache
        decreases paths
      {
        var path := Pick(paths);
        paths := paths - {path};
        if path !in active {
          cgroupPathIDCache := cgroupPathIDCache - {path};
        }
      }
      assert cgroupPathIDCache == EvictPaths(cgroupPathIDCache, active);
    }

    static method Pick<K(!new)>(todo: set<K>) returns (k: K)
      requires todo != {}
      ensures k in todo
    {
      k :| k in todo;
    }
  }

  lemma {:induction false} ListedNext(c: Caches, listed: seq<(string, string)>, path: string, uuid: string,
      lookup: map<string, nat>)
    ensures VisitAll(c, listed + [(path, uuid)], lookup) == Visit(VisitAll(c, listed, lookup), uuid, path, lookup)
  {
    var l := listed + [(path, uuid)];
    assert l[..|listed|] == listed;
    assert l[|listed|] == (path, uuid);
  }

  /* ---- What one scan leaves, from the cgroups and the caches before it ---- */

  /** The path is that of a child of a cgroup of this uuid. */
  ghost predicate Child(cgroups: seq<Cgroup>, path: string, uuid: string)
  {
    exists i, k :: ChildAt(cgroups, i, k, path, uuid)
  }

  ghost predicate ChildAt(cgroups: seq<Cgroup>, i: int, k: int, path: string, uuid: string)
  {
    0 <= i < |cgroups| && 0 <= k < |cgroups[i].children| && cgroups[i].children[k] == path && cgroups[i].uuid == uuid
  }

  lemma {:induction false} ListedIs(cgroups: seq<Cgroup>, path: string, uuid: string)
    ensures (path, uuid) in Listed(cgroups) <==> Child(cgroups, path, uuid)
  {
    if cgroups != [] {
      var n := |cgroups| - 1;
      var c := cgroups[n];
      ListedIs(cgroups[..n], path, uuid);
      if Child(cgroups[..n], path, uuid) {
        var i, k :| ChildAt(cgroups[..n], i, k, path, uuid);
        assert ChildAt(cgroups, i, k, path, uuid);
      }
      if (path, uuid) in Children(c, |c.children|) {
        var k :| 0 <= k < |c.children| && Children(c, |c.children|)[k] == (path, uuid);
        assert ChildAt(cgroups, n, k, path, uuid);
      }
      if Child(cgroups, path, uuid) {
        var i, k :| ChildAt(cgroups, i, k, path, uuid);
        if i < n {
          assert ChildAt(cgroups[..n], i, k, path, uuid);
        } else {
          assert Children(c, |c.children|)[k] == (path, uuid);
        }
      }
    }
  }

  /** The inode of a path as a scan sees it: the cached one, or else the one that is read; zero if there is none. */
  function InodeNow(c: Caches, lookup: map<string, nat>, path: string): nat
  {
    if path in c.paths then c.paths[path] else if path in lookup then lookup[path] else 0
  }

  /** A child's path, the uuid of its cgroup and its inode. */
  ghost predicate HasInode(c: Caches, cgroups: seq<Cgroup>, lookup: map<string, nat>, p: string, u: string, i: nat)
  {
    Child(cgroups, p, u) && InodeNow(c, lookup, p) == i
  }

  /** The path cache holds the listed paths with an inode, and active are the inodes of all listed paths. */
  ghost predicate PathsScanned(c: Caches, cgroups: seq<Cgroup>, lookup: map<string, nat>, d: Caches)
  {
    && (forall p :: p in d.paths <==> (p in c.paths || p in lookup) && exists u :: Child(cgroups, p, u))
    && (forall p :: p in d.paths ==> d.paths[p] == InodeNow(c, lookup, p))
    && (forall i :: i in d.active <==> exists p, u :: HasInode(c, cgroups, lookup, p, u, i))
  }

  /** The inode is read in this scan, for a path that had none. */
  ghost predicate ReadNow(c: Caches, cgroups: seq<Cgroup>, lookup: map<string, nat>, i: nat)
  {
    exists p, u :: Child(cgroups, p, u) && p !in c.paths && p in lookup && lookup[p] == i
  }

  /** The ID cache has the inode, and the scan does not write its entry. */
  ghost predicate Kept(c: Caches, cgroups: seq<Cgroup>, lookup: map<string, nat>, i: nat)
  {
    i in c.ids && !ReadNow(c, cgroups, lookup, i)
  }

  /**
   * The ID cache names listed cgroups. An entry that is kept names the same cgroup as before, and goes only if this
   * cgroup is gone. Any other inode of a listed path has an entry, and it names a cgroup that has a path with it.
   */
  ghost predicate IdsScanned(c: Caches, cgroups: seq<Cgroup>, lookup: map<string, nat>, d: Caches)
  {
    && (forall i :: i in d.ids ==> exists p :: Child(cgroups, p, d.ids[i]))
    && (forall i :: Kept(c, cgroups, lookup, i) && i in d.ids ==> d.ids[i] == c.ids[i])
    && (forall i :: Kept(c, cgroups, lookup, i) && i !in d.ids ==> !exists p :: Child(cgroups, p, c.ids[i]))
    && (forall p, u, i :: HasInode(c, cgroups, lookup, p, u, i) && !Kept(c, cgroups, lookup, i) ==> i in d.ids)
    && (forall i :: i in d.ids && !Kept(c, cgroups, lookup, i) ==>
          exists p :: HasInode(c, cgroups, lookup, p, d.ids[i], i))
  }

  /** The inode is cached for the path, it is active, and it is known to be the cgroup's. */
  ghost predicate Found(d: Caches, path: string, inode: nat, uuid: string)
  {
    && path in d.paths && d.paths[path] == inode && inode in d.active
    && inode in d.ids && d.ids[inode] == uuid
  }

  ghost predicate AllFound(c: Caches, cgroups: seq<Cgroup>, lookup: map<string, nat>, d: Caches)
  {
    forall p, u, i :: HasInode(c, cgroups, lookup, p, u, i) && i != 0 ==> Found(d, p, i, u)
  }

  /** No inode has paths of two cgroups, and the entry that is kept for one names the cgroup that has it now. */
  ghost predicate OneOwner(c: Caches, cgroups: seq<Cgroup>, lookup: map<string, nat>)
  {
    && (forall i, p, u, q, v | HasInode(c, cgroups, lookup, p, u, i) && HasInode(c, cgroups, lookup, q, v, i) && i != 0
          :: u == v)
    && (forall i, p, u | HasInode(c, cgroups, lookup, p, u, i) && i != 0 && Kept(c, cgroups, lookup, i)
          :: c.ids[i] == u)
  }

  /** Every readable child is cached, active and owned by its cgroup when and only when inodes have one owner. */
  lemma {:induction false} FoundExactly(c: Caches, cgroups: seq<Cgroup>, lookup: map<string, nat>, d: Caches)
    requires PathsScanned(c, cgroups, lookup, d) && IdsScanned(c, cgroups, lookup, d)
    ensures AllFound(c, cgroups, lookup, d) <==> OneOwner(c, cgroups, lookup)
  {
    if OneOwner(c, cgroups, lookup) {
      forall p, u, i | HasInode(c, cgroups, lookup, p, u, i) && i != 0 ensures Found(d, p, i, u) {
        OwnerFound(c, cgroups, lookup, d, p, u, i);
      }
    }
    if AllFound(c, cgroups, lookup, d) {
      forall i, p, u, q, v | HasInode(c, cgroups, lookup, p, u, i) && HasInode(c, cgroups, lookup, q, v, i) && i != 0
        ensures u == v
      {
        assert Found(d, p, i, u) && Found(d, q, i, v);
      }
      forall i, p, u | HasInode(c, cgroups, lookup, p, u, i) && i != 0 && Kept(c, cgroups, lookup, i)
        ensures c.ids[i] == u
      {
        assert Found(d, p, i, u);
      }
    }
  }

  /** A path that is cached and passes to another cgroup is still known to be the first one's, which goes on. */
  lemma {:induction false} MovedPathMissed(path: string, other: string, inode: nat, first: string, second: string)
    requires first != second && path != other && inode != 0
    ensures var cgroups := [Cgroup(second, [path]), Cgroup(first, [other])];
      var d := Discover(Caches(map[inode := first], map[path := inode], []), Listed(cgroups), map[]);
      inode in d.ids && d.ids[inode] == first && inode in d.active && Child(cgroups, path, second)
  {
    var cgroups := [Cgroup(second, [path]), Cgroup(first, [other])];
    var c := Caches(map[inode := first], map[path := inode], []);
    ScanIs(c, cgroups, map[]);
    assert ChildAt(cgroups, 0, 0, path, second) && ChildAt(cgroups, 1, 0, other, first);
    assert Child(cgroups, path, second) && Child(cgroups, other, first);
    assert HasInode(c, cgroups, map[], path, second, inode);
    assert Kept(c, cgroups, map[], inode);
  }

  lemma {:induction false} OwnerFound(c: Caches, cgroups: seq<Cgroup>, lookup: map<string, nat>, d: Caches, p: string,
      u: string, i: nat)
    requires PathsScanned(c, cgroups, lookup, d) && IdsScanned(c, cgroups, lookup, d) && OneOwner(c, cgroups, lookup)
    requires HasInode(c, cgroups, lookup, p, u, i) && i != 0
    ensures Found(d, p, i, u)
  {
    if Kept(c, cgroups, lookup, i) {
      assert c.ids[i] == u;
    }
  }

  /* The same in the middle of a scan, on the pairs visited so far. */

  ghost predicate ReadOf(c: Caches, done: seq<(string, string)>, lookup: map<string, nat>, i: nat)
  {
    exists a :: a in done && a.0 !in c.paths && a.0 in lookup && lookup[a.0] == i
  }

  ghost predicate OwnerOf(c: Caches, done: seq<(string, string)>, lookup: map<string, nat>, i: nat, uuid: string)
  {
    exists a :: a in done && a.1 == uuid && InodeNow(c, lookup, a.0) == i
  }

  ghost predicate PathsVisited(c: Caches, done: seq<(string, string)>, lookup: map<string, nat>, d: Caches)
  {
    && (forall p :: p in d.paths <==> p in c.paths || (p in lookup && p in PathsOf(done)))
    && (forall p :: p in d.paths ==> d.paths[p] == InodeNow(c, lookup, p))
    && (forall i :: i in d.active <==> exists a :: a in done && InodeNow(c, lookup, a.0) == i)
  }

  ghost predicate IdsVisited(c: Caches, done: seq<(string, string)>, lookup: map<string, nat>, d: Caches)
  {
    && (forall a :: a in done ==> InodeNow(c, lookup, a.0) in d.ids)
    && (forall i :: i in c.ids && !ReadOf(c, done, lookup, i) ==> i in d.ids && d.ids[i] == c.ids[i])
    && (forall i :: i in d.ids && (i !in c.ids || ReadOf(c, done, lookup, i)) ==> OwnerOf(c, done, lookup, i, d.ids[i]))
  }
  lemma {:induction false} PathsStep(c: Caches, done: seq<(string, string)>, lookup: map<string, nat>, d: Caches,
      a: (string, string))
    requires PathsVisited(c, done, lookup, d)
    ensures PathsVisited(c, done + [a], lookup, Visit(d, a.1, a.0, lookup))
  {
    var e := Visit(d, a.1, a.0, lookup);
    assert PathsOf(done + [a]) == PathsOf(done) + {a.0};
    assert InodeOf(e.paths, a.0) == InodeNow(c, lookup, a.0);
    forall i ensures i in e.active <==> exists b :: b in done + [a] && InodeNow(c, lookup, b.0) == i {
      if exists b :: b in done && InodeNow(c, lookup, b.0) == i {
        var b :| b in done && InodeNow(c, lookup, b.0) == i;
        assert b in done + [a];
      }
      if i == InodeNow(c, lookup, a.0) {
        assert a in done + [a];
      }
    }
  }

  lemma {:induction false} Grows(c: Caches, done: seq<(string, string)>, lookup: map<string, nat>,
      a: (string, string), i: nat, uuid: string)
    ensures ReadOf(c, done + [a], lookup, i) <==> ReadOf(c, done, lookup, i) || ReadOf(c, [a], lookup, i)
    ensures OwnerOf(c, done + [a], lookup, i, uuid)
      <==> OwnerOf(c, done, lookup, i, uuid) || (a.1 == uuid && InodeNow(c, lookup, a.0) == i)
  {
    assert a in done + [a] && a in [a];
    assert forall b :: b in done + [a] <==> b in done || b in [a];
  }

  lemma {:induction false} IdsStep(c: Caches, done: seq<(string, string)>, lookup: map<string, nat>, d: Caches,
      a: (string, string))
    requires PathsVisited(c, done, lookup, d) && IdsVisited(c, done, lookup, d)
    ensures IdsVisited(c, done + [a], lookup, Visit(d, a.1, a.0, lookup))
  {
    var e, ino := Visit(d, a.1, a.0, lookup), InodeNow(c, lookup, a.0);
    forall i | i in e.ids && (i !in c.ids || ReadOf(c, done + [a], lookup, i))
      ensures OwnerOf(c, done + [a], lookup, i, e.ids[i])
    {
      Grows(c, done, lookup, a, i, e.ids[i]);
      NewRead(c, done, lookup, d, a, i);
    }
    forall i | i in c.ids && !ReadOf(c, done + [a], lookup, i)
      ensures i in e.ids && e.ids[i] == c.ids[i]
    {
      Grows(c, done, lookup, a, i, "");
      NewRead(c, done, lookup, d, a, i);
    }
  }

  /** What the visit of one path does to the entry of one inode. */
  lemma {:induction false} NewRead(c: Caches, done: seq<(string, string)>, lookup: map<string, nat>, d: Caches,
      a: (string, string), i: nat)
    requires PathsVisited(c, done, lookup, d)
    ensures var e := Visit(d, a.1, a.0, lookup);
      && (ReadOf(c, [a], lookup, i) && a.0 !in PathsOf(done) ==> i in e.ids && e.ids[i] == a.1)
      && (ReadOf(c, [a], lookup, i) && a.0 in PathsOf(done) ==> ReadOf(c, done, lookup, i))
      && (i != InodeNow(c, lookup, a.0) ==> (i in e.ids <==> i in d.ids) && (i in d.ids ==> e.ids[i] == d.ids[i]))
      && (i in e.ids && (i !in d.ids || e.ids[i] != d.ids[i]) ==> i == InodeNow(c, lookup, a.0) && e.ids[i] == a.1)
      && (i in d.ids && !ReadOf(c, [a], lookup, i) ==> i in e.ids && e.ids[i] == d.ids[i])
  {
    assert a in [a];
    assert forall b :: b in [a] ==> b == a;
  }

  lemma {:induction false} VisitedAll(c: Caches, done: seq<(string, string)>, lookup: map<string, nat>)
    requires c.active == []
    ensures PathsVisited(c, done, lookup, VisitAll(c, done, lookup))
    ensures IdsVisited(c, done, lookup, VisitAll(c, done, lookup))
  {
    if done != [] {
      var n := |done| - 1;
      VisitedAll(c, done[..n], lookup);
      assert done == done[..n] + [done[n]];
      PathsStep(c, done[..n], lookup, VisitAll(c, done[..n], lookup), done[n]);
      IdsStep(c, done[..n], lookup, VisitAll(c, done[..n], lookup), done[n]);
    }
  }

  /** The pairs that are visited are the children of the cgroups. */
  ghost predicate Lists(done: seq<(string, string)>, cgroups: seq<Cgroup>)
  {
    && (forall a :: a in done ==> Child(cgroups, a.0, a.1))
    && (forall p, u :: Child(cgroups, p, u) ==> (p, u) in done)
  }

  lemma {:induction false} ListedLists(cgroups: seq<Cgroup>)
    ensures Lists(Listed(cgroups), cgroups)
  {
    forall a | a in Listed(cgroups) ensures Child(cgroups, a.0, a.1) {
      ListedIs(cgroups, a.0, a.1);
    }
    forall p, u | Child(cgroups, p, u) ensures (p, u) in Listed(cgroups) {
      ListedIs(cgroups, p, u);
    }
  }

  lemma {:induction false} ListsPaths(done: seq<(string, string)>, cgroups: seq<Cgroup>, p: string, u: string)
    requires Lists(done, cgroups)
    ensures p in PathsOf(done) <==> exists v :: Child(cgroups, p, v)
    ensures u in UuidsOf(done) <==> exists q :: Child(cgroups, q, u)
  {
    if p in PathsOf(done) {
      var a :| a in done && a.0 == p;
      assert Child(cgroups, p, a.1);
    }
    if u in UuidsOf(done) {
      var a :| a in done && a.1 == u;
      assert Child(cgroups, a.0, u);
    }
    if exists v :: Child(cgroups, p, v) {
      var v :| Child(cgroups, p, v);
      assert (p, v) in done;
    }
    if exists q :: Child(cgroups, q, u) {
      var q :| Child(cgroups, q, u);
      assert (q, u) in done;
    }
  }

  lemma {:induction false} ListsReads(c: Caches, done: seq<(string, string)>, cgroups: seq<Cgroup>,
      lookup: map<string, nat>, i: nat, u: string)
    requires Lists(done, cgroups)
    ensures ReadOf(c, done, lookup, i) <==> ReadNow(c, cgroups, lookup, i)
    ensures OwnerOf(c, done, lookup, i, u) <==> exists p :: HasInode(c, cgroups, lookup, p, u, i)
  {
    if ReadNow(c, cgroups, lookup, i) {
      var p, v :| Child(cgroups, p, v) && p !in c.paths && p in lookup && lookup[p] == i;
      assert (p, v) in done;
    }
    if OwnerOf(c, done, lookup, i, u) {
      var a :| a in done && a.1 == u && InodeNow(c, lookup, a.0) == i;
      assert HasInode(c, cgroups, lookup, a.0, u, i);
    }
    if exists p :: HasInode(c, cgroups, lookup, p, u, i) {
      var p :| HasInode(c, cgroups, lookup, p, u, i);
      assert (p, u) in done;
    }
  }

  lemma {:induction false} EvictedPaths(c: Caches, done: seq<(string, string)>, cgroups: seq<Cgroup>,
      lookup: map<string, nat>, d: Caches, e: Caches)
    requires Lists(done, cgroups) && PathsVisited(c, done, lookup, d)
    requires e.paths == EvictPaths(d.paths, PathsOf(done)) && e.active == d.active
    ensures PathsScanned(c, cgroups, lookup, e)
  {
    forall p ensures p in e.paths <==> (p in c.paths || p in lookup) && exists u :: Child(cgroups, p, u) {
      ListsPaths(done, cgroups, p, "");
    }
    forall i ensures i in e.active <==> exists p, u :: HasInode(c, cgroups, lookup, p, u, i) {
      if i in e.active {
        var a :| a in done && InodeNow(c, lookup, a.0) == i;
        assert HasInode(c, cgroups, lookup, a.0, a.1, i);
      }
      if exists p, u :: HasInode(c, cgroups, lookup, p, u, i) {
        var p, u :| HasInode(c, cgroups, lookup, p, u, i);
        assert (p, u) in done;
      }
    }
  }

  lemma {:induction false} EvictedIds(c: Caches, done: seq<(string, string)>, cgroups: seq<Cgroup>,
      lookup: map<string, nat>, d: Caches, e: Caches)
    requires Lists(done, cgroups) && IdsVisited(c, done, lookup, d)
    requires e.ids == EvictIds(d.ids, UuidsOf(done))
    ensures IdsScanned(c, cgroups, lookup, e)
  {
    forall i | i in e.ids
      ensures exists p :: Child(cgroups, p, e.ids[i])
      ensures !Kept(c, cgroups, lookup, i) ==> exists p :: HasInode(c, cgroups, lookup, p, e.ids[i], i)
    {
      ListsPaths(done, cgroups, "", e.ids[i]);
      ListsReads(c, done, cgroups, lookup, i, e.ids[i]);
    }
    forall i | Kept(c, cgroups, lookup, i)
      ensures i in e.ids ==> e.ids[i] == c.ids[i]
      ensures i !in e.ids ==> !exists p :: Child(cgroups, p, c.ids[i])
    {
      ListsPaths(done, cgroups, "", c.ids[i]);
      ListsReads(c, done, cgroups, lookup, i, "");
    }
    forall p, u, i | HasInode(c, cgroups, lookup, p, u, i) && !Kept(c, cgroups, lookup, i)
      ensures i in e.ids
    {
      assert (p, u) in done;
      assert i in d.ids;
      ListsReads(c, done, cgroups, lookup, i, d.ids[i]);
      if OwnerOf(c, done, lookup, i, d.ids[i]) {
        ListsPaths(done, cgroups, "", d.ids[i]);
      }
    }
  }

  /** What a scan leaves, on the cgroups themselves. */
  lemma {:induction false} ScanIs(c: Caches, cgroups: seq<Cgroup>, lookup: map<string, nat>)
    ensures PathsScanned(c, cgroups, lookup, Discover(c, Listed(cgroups), lookup))
    ensures IdsScanned(c, cgroups, lookup, Discover(c, Listed(cgroups), lookup))
  {
    var done, b, e := Listed(cgroups), c.(active := []), Discover(c, Listed(cgroups), lookup);
    ListedLists(cgroups);
    VisitedAll(b, done, lookup);
    EvictedPaths(b, done, cgroups, lookup, VisitAll(b, done, lookup), e);
    EvictedIds(b, done, cgroups, lookup, VisitAll(b, done, lookup), e);
    ScanIgnoresActive(c, b, cgroups, lookup, e);
  }

  /** Which inodes were active before does not matter. */
  lemma {:induction false} ScanIgnoresActive(c: Caches, b: Caches, cgroups: seq<Cgroup>, lookup: map<string, nat>,
      e: Caches)
    requires b == c.(active := []) && PathsScanned(b, cgroups, lookup, e) && IdsScanned(b, cgroups, lookup, e)
    ensures PathsScanned(c, cgroups, lookup, e) && IdsScanned(c, cgroups, lookup, e)
  {
    assert forall p :: InodeNow(b, lookup, p) == InodeNow(c, lookup, p);
    assert forall i :: ReadNow(b, cgroups, lookup, i) <==> ReadNow(c, cgroups, lookup, i);
    assert forall i :: Kept(b, cgroups, lookup, i) <==> Kept(c, cgroups, lookup, i);
    assert forall p, u, i :: HasInode(b, cgroups, lookup, p, u, i) <==> HasInode(c, cgroups, lookup, p, u, i);
  }

  /* ---- Agreement with the cgroup tree ---- */

  /** The cgroup tree at one scan: who owns each path and its inode, and the paths whose inode cannot be read now. */
  datatype Tree = Tree(listed: seq<(string, string)>, inodes: map<string, nat>, unreadable: set<string>)

  function Lookup(t: Tree): map<string, nat>
  {
    map p | p in t.inodes && p !in t.unreadable :: t.inodes[p]
  }

  /** Every path has one owner and an inode of its own; inode zero does not exist. */
  ghost predicate ProperTree(t: Tree)
  {
    && (forall a, b :: a in t.listed && b in t.listed && a.0 == b.0 ==> a == b)
    && (forall a :: a in t.listed ==> a.0 in t.inodes && t.inodes[a.0] > 0)
    && (forall a, b :: a in t.listed && b in t.listed && t.inodes[a.0] == t.inodes[b.0] ==> a == b)
  }

  /** A path that stays keeps its owner and inode. */
  ghost predicate Continues(t: Tree, u: Tree)
    requires ProperTree(t) && ProperTree(u)
  {
    forall a, b :: a in t.listed && b in u.listed && a.0 == b.0 ==> a == b && t.inodes[a.0] == u.inodes[b.0]
  }

  /** The caches agree with the tree: this is what the aggregation relies on. */
  ghost predicate Agree(c: Caches, t: Tree)
    requires ProperTree(t)
  {
    && (forall p :: p in c.paths ==> p in PathsOf(t.listed))
    && (forall a :: a in t.listed && a.0 !in c.paths ==> a.0 in t.unreadable)
    && (forall a :: a in t.listed && a.0 in c.paths ==> Resolved(c, a, t.inodes[a.0]))
    && (forall i :: i in c.ids ==> c.ids[i] in UuidsOf(t.listed))
  }

  predicate Resolved(c: Caches, a: (string, string), inode: nat)
  {
    a.0 in c.paths && c.paths[a.0] == inode && inode in c.ids && c.ids[inode] == a.1
  }

  /** In the middle of a scan: paths visited are resolved unless unreadable, cached paths of the tree are right. */
  ghost predicate Scanning(c: Caches, t: Tree, done: seq<(string, string)>)
    requires ProperTree(t)
  {
    && (forall a :: a in done && a.0 !in c.paths ==> a.0 in t.unreadable)
    && (forall a :: a in t.listed && a.0 in c.paths ==> Resolved(c, a, t.inodes[a.0]))
  }

  lemma {:induction false} VisitKeeps(c: Caches, t: Tree, done: seq<(string, string)>, a: (string, string))
    requires ProperTree(t) && Scanning(c, t, done) && a in t.listed
    ensures Scanning(Visit(c, a.1, a.0, Lookup(t)), t, done + [a])
  {
    var d := Visit(c, a.1, a.0, Lookup(t));
    forall b | b in t.listed && b.0 in d.paths
      ensures Resolved(d, b, t.inodes[b.0])
    {
      if b.0 != a.0 {
        assert t.inodes[b.0] != t.inodes[a.0];
        assert Resolved(c, b, t.inodes[b.0]);
      } else {
        assert b == a;
        if a.0 in c.paths {
          assert Resolved(c, a, t.inodes[a.0]);
        }
      }
    }
  }

  lemma {:induction false} VisitAllKeeps(c: Caches, t: Tree, n: nat)
    requires ProperTree(t) && n <= |t.listed| && Scanning(c, t, [])
    ensures Scanning(VisitAll(c, t.listed[..n], Lookup(t)), t, t.listed[..n])
  {
    if n > 0 {
      VisitAllKeeps(c, t, n - 1);
      assert t.listed[..n][..n-1] == t.listed[..n-1];
      PrefixStep(t.listed, n - 1);
      assert t.listed[n-1] in t.listed;
      VisitKeeps(VisitAll(c, t.listed[..n-1], Lookup(t)), t, t.listed[..n-1], t.listed[n-1]);
    }
  }

  lemma {:induction false} EvictAgrees(d: Caches, u: Tree)
    requires ProperTree(u) && Scanning(d, u, u.listed)
    ensures Agree(d.(ids := EvictIds(d.ids, UuidsOf(u.listed)), paths := EvictPaths(d.paths, PathsOf(u.listed))), u)
  {
    var e := d.(ids := EvictIds(d.ids, UuidsOf(u.listed)), paths := EvictPaths(d.paths, PathsOf(u.listed)));
    forall a | a in u.listed
      ensures a.0 in e.paths ==> Resolved(e, a, u.inodes[a.0])
      ensures a.0 !in e.paths ==> a.0 in u.unreadable
    {
      assert a.1 in UuidsOf(u.listed) && a.0 in PathsOf(u.listed);
      if a.0 in e.paths {
        assert Resolved(d, a, u.inodes[a.0]);
      }
    }
  }

  lemma {:induction false} ScanStarts(c: Caches, t: Tree, u: Tree)
    requires ProperTree(t) && ProperTree(u) && Continues(t, u) && Agree(c, t)
    ensures Scanning(c.(active := []), u, [])
  {
    forall a | a in u.listed && a.0 in c.paths
      ensures Resolved(c, a, u.inodes[a.0])
    {
      var b :| b in t.listed && b.0 == a.0;
      assert Resolved(c, b, t.inodes[b.0]);
    }
  }

  /** One scan keeps the caches in agreement, whatever came and went, inode numbers reused included. */
  lemma {:induction false} ScanAgrees(c: Caches, t: Tree, u: Tree)
    requires ProperTree(t) && ProperTree(u) && Continues(t, u) && Agree(c, t)
    ensures Agree(Discover(c, u.listed, Lookup(u)), u)
  {
    ScanStarts(c, t, u);
    VisitAllKeeps(c.(active := []), u, |u.listed|);
    PrefixAll(u.listed);
    EvictAgrees(VisitAll(c.(active := []), u.listed, Lookup(u)), u);
  }

  ghost predicate ProperRun(t: Tree, run: seq<Tree>)
    requires ProperTree(t)
    decreases |run|
  {
    run != [] ==> ProperTree(run[0]) && Continues(t, run[0]) && ProperRun(run[0], run[1..])
  }

  function AfterScans(c: Caches, run: seq<Tree>): Caches
    decreases |run|
  {
    if run == [] then c else AfterScans(Discover(c, run[0].listed, Lookup(run[0])), run[1..])
  }

  function LastTree(t: Tree, run: seq<Tree>): Tree
    decreases |run|
  {
    if run == [] then t else LastTree(run[0], run[1..])
  }

  lemma {:induction false} LastTreeIs(t: Tree, run: seq<Tree>)
    requires run != []
    ensures LastTree(t, run) == run[|run|-1]
    decreases |run|
  {
    if |run| > 1 {
      LastTreeIs(run[0], run[1..]);
    }
  }

  lemma {:induction false} ScansAgree(c: Caches, t: Tree, run: seq<Tree>)
    requires ProperTree(t) && ProperRun(t, run) && Agree(c, t)
    ensures ProperTree(LastTree(t, run)) && Agree(AfterScans(c, run), LastTree(t, run))
    decreases |run|
  {
    if run != [] {
      ScanAgrees(c, t, run[0]);
      ScansAgree(Discover(c, run[0].listed, Lookup(run[0])), run[0], run[1..]);
    }
  }

  /** After any run of scans the caches agree with the last tree seen. */
  lemma {:induction false} RunAgrees(c: Caches, t: Tree, run: seq<Tree>)
    requires ProperTree(t) && ProperRun(t, run) && Agree(c, t) && run != []
    ensures ProperTree(run[|run|-1]) && Agree(AfterScans(c, run), run[|run|-1])
  {
    ScansAgree(c, t, run);
    LastTreeIs(t, run);
  }

  lemma {:induction false} StartAgrees()
    ensures ProperTree(Tree([], map[], {})) && Agree(Caches(map[], map[], []), Tree([], map[], {}))
  {
  }

  lemma {:induction false} ActiveAre(c: Caches, listed: seq<(string, string)>, lookup: map<string, nat>, k: nat)
    requires k < |listed|
    ensures var d := VisitAll(c, listed, lookup);
      |d.active| == |c.active| + |listed|
          && (forall p :: p in VisitAll(c, listed[..k+1], lookup).paths ==> p in d.paths)
    ensures var d := VisitAll(c, listed, lookup);
      && InodeOf(VisitAll(c, listed[..k+1], lookup).paths, listed[k].0) == d.active[|c.active| + k]
      && (listed[k].0 in d.paths && d.active[|c.active| + k] != 0 ==> d.paths[listed[k].0] == d.active[|c.active| + k])
  {
    var n := |listed| - 1;
    if k < n {
      ActiveAre(c, listed[..n], lookup, k);
      assert listed[..n][..k+1] == listed[..k+1];
    } else {
      ActiveCount(c, listed[..n], lookup);
      PrefixAll(listed);
    }
  }

  lemma {:induction false} ActiveCount(c: Caches, listed: seq<(string, string)>, lookup: map<string, nat>)
    ensures |VisitAll(c, listed, lookup).active| == |c.active| + |listed|
  {
    if listed != [] {
      ActiveCount(c, listed[..|listed|-1], lookup);
    }
  }

  ghost predicate OwnedInode(c: Caches, u: Tree, a: (string, string), i: nat)
  {
    a.0 in u.inodes && u.inodes[a.0] == i && i in c.ids && c.ids[i] == a.1
  }

  lemma {:induction false} AgreeOwned(c: Caches, u: Tree, a: (string, string))
    requires ProperTree(u) && Agree(c, u) && a in u.listed && a.0 in c.paths
    ensures OwnedInode(c, u, a, c.paths[a.0])
  {
    assert Resolved(c, a, u.inodes[a.0]);
  }

  /** An active inode that is not zero is in the path cache for a listed path. */
  lemma {:induction false} ActivePath(b: Caches, listed: seq<(string, string)>, lookup: map<string, nat>, i: nat)
      returns (a: (string, string))
    requires b.active == [] && i != 0 && i in VisitAll(b, listed, lookup).active
    ensures a in listed && a.0 in VisitAll(b, listed, lookup).paths && VisitAll(b, listed, lookup).paths[a.0] == i
  {
    var d := VisitAll(b, listed, lookup);
    ActiveCount(b, listed, lookup);
    var k :| 0 <= k < |d.active| && d.active[k] == i;
    ActiveAre(b, listed, lookup, k);
    a := listed[k];
  }

  /** An inode counted as active and not zero is that of a listed path, and the ID cache names the path's owner. */
  lemma {:induction false} ActiveInodeOwned(c: Caches, u: Tree, i: nat)
    requires ProperTree(u)
    requires Agree(Discover(c, u.listed, Lookup(u)), u)
    requires i != 0 && i in Discover(c, u.listed, Lookup(u)).active
    ensures exists a :: a in u.listed && OwnedInode(Discover(c, u.listed, Lookup(u)), u, a, i)
  {
    var a := ActivePath(c.(active := []), u.listed, Lookup(u), i);
    assert a.0 in PathsOf(u.listed);
    AgreeOwned(Discover(c, u.listed, Lookup(u)), u, a);
  }
}
