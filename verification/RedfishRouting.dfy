/** Learned redfish targets (cmd/redfish_proxy/reverseproxy.go). */
module RedfishRouting {
  import opened Options
  import opened Seqs

  type Url = string

  /** The redfish URL header of a request: missing, not a URL, or a URL. */
  datatype Header = Missing | Invalid | Valid(url: Url)

  /** The addresses a request comes from, in the order in which they are looked up. */
  datatype Request = Request(ips: seq<string>, header: Header)

  type Targets = map<string, Url>

  /** The target of the first address that is in the table. */
  function Find(targets: Targets, ips: seq<string>): (r: Option<Url>)
    ensures r.None? <==> forall ip :: ip in ips ==> ip !in targets
  {
    if ips == [] then None else if ips[0] in targets then Some(targets[ips[0]]) else Find(targets, ips[1..])
  }

  /** The table with all addresses of a request set to one target. */
  function Learn(targets: Targets, ips: seq<string>, url: Url): Targets
  {
    map ip | ip in targets.Keys + (set i | i in ips) :: if ip in ips then url else targets[ip]
  }

  lemma {:induction false} LearnNext(table: Targets, ips: seq<string>, i: nat, url: Url)
    requires i < |ips|
    ensures Learn(table, ips[..i+1], url) == Learn(table, ips[..i], url)[ips[i] := url]
  {
    PrefixStep(ips, i);
    var a, b := ips[..i], ips[..i+1];
    assert (set x | x in b) == (set x | x in a) + {ips[i]};
  }

  /* ---- The proxy, one request at a time ---- */

  class ReverseProxy {
    var targets: Targets

    /** The configured targets; where an address is configured twice the later one stands. */
    constructor (config: seq<(seq<string>, Url)>)
      ensures targets == Configured(config)
    {
      var table: Targets := map[];
      for i := 0 to |config|
        invariant table == Configured(config[..i])
      {
        table := SetAll(table, config[i].0, config[i].1);
        PrefixStep(config, i);
      }
      PrefixAll(config);
      targets := table;
    }

    /** The read step, under the read lock. */
    method Lookup(remoteIPs: seq<string>) returns (target: Option<Url>)
      ensures target == Find(targets, remoteIPs)
    {
      for i := 0 to |remoteIPs|
        invariant Find(targets, remoteIPs) == Find(targets, remoteIPs[i..])
      {
        if remoteIPs[i] in targets {
          return Some(targets[remoteIPs[i]]);
        }
      }
      target := None;
    }

    /** The write step, under the write lock. */
    method Store(remoteIPs: seq<string>, target: Url)
      modifies this
      ensures targets == Learn(old(targets), remoteIPs, target)
    {
      targets := SetAll(targets, remoteIPs, target);
    }

    /** The loop that sets addresses, in the constructor as in the write step. */
    static method SetAll(table: Targets, ips: seq<string>, url: Url) returns (r: Targets)
      ensures r == Learn(table, ips, url)
    {
      r := table;
      for i := 0 to |ips|
        invariant r == Learn(table, ips[..i], url)
      {
        LearnNext(table, ips, i, url);
        r := r[ips[i] := url];
      }
      PrefixAll(ips);
    }

    /** A whole request with no other in between; no target means that the request is refused. */
    method RewriteRequestURL(req: Request) returns (target: Option<Url>)
      modifies this
      ensures Served(old(targets), req, targets, target)
      ensures targets == Serve(old(targets), req).0 && target == Serve(old(targets), req).1
    {
      ServeIs(targets, req);
      target := Lookup(req.ips);
      if target.Some? {
        return;
      }
      match req.header {
        case Valid(url) =>
          Store(req.ips, url);
          target := Some(url);
        case _ =>
      }
    }
  }

  function Configured(config: seq<(seq<string>, Url)>): Targets
  {
    if config == [] then map[]
    else Learn(Configured(config[..|config|-1]), config[|config|-1].0, config[|config|-1].1)
  }

  /** The table after a request that is not interrupted, and its target. */
  function Serve(targets: Targets, req: Request): (Targets, Option<Url>)
  {
    var found := Find(targets, req.ips);
    if found.Some? then (targets, found)
    else if req.header.Valid? then (Learn(targets, req.ips, req.header.url), Some(req.header.url))
    else (targets, None)
  }

  /** All addresses of a request go to the target, and every other entry stays. */
  ghost predicate SetTo(before: Targets, after: Targets, ips: seq<string>, url: Url)
  {
    && (forall ip :: ip in ips ==> ip in after && after[ip] == url)
    && (forall ip :: ip !in ips ==> (ip in after <==> ip in before) && (ip in before ==> after[ip] == before[ip]))
  }

  lemma {:induction false} LearnSets(targets: Targets, ips: seq<string>, url: Url)
    ensures SetTo(targets, Learn(targets, ips, url), ips, url)
  {
  }

  /**
   * What becomes of a request: a known address decides, by the first one; else a valid header decides, and is learned
   * for all addresses; else the request is refused. Only what is learned changes the table.
   */
  ghost predicate Served(before: Targets, req: Request, after: Targets, target: Option<Url>)
  {
    if exists k :: FirstKnown(before, req.ips, k) then
      after == before && forall k :: FirstKnown(before, req.ips, k) ==> target == Some(before[req.ips[k]])
    else match req.header
      case Valid(url) => target == Some(url) && SetTo(before, after, req.ips, url)
      case Missing => target == None && after == before
      case Invalid => target == None && after == before
  }

  ghost predicate FirstKnown(targets: Targets, ips: seq<string>, k: int)
  {
    0 <= k < |ips| && ips[k] in targets && forall j :: 0 <= j < k ==> ips[j] !in targets
  }

  lemma {:induction false} ServeIs(targets: Targets, req: Request)
    ensures Served(targets, req, Serve(targets, req).0, Serve(targets, req).1)
  {
    FindFirst(targets, req.ips);
    if req.header.Valid? {
      LearnSets(targets, req.ips, req.header.url);
    }
    if exists k :: FirstKnown(targets, req.ips, k) {
      var k :| FirstKnown(targets, req.ips, k);
    } else if Find(targets, req.ips).Some? {
      var k :| 0 <= k < |req.ips| && req.ips[k] in targets && forall j :: 0 <= j < k ==> req.ips[j] !in targets;
      assert FirstKnown(targets, req.ips, k);
    }
  }

  ghost predicate LastMention(config: seq<(seq<string>, Url)>, ip: string, k: int)
  {
    0 <= k < |config| && ip in config[k].0 && forall j :: k < j < |config| ==> ip !in config[j].0
  }

  lemma {:induction false} ConfiguredSome(config: seq<(seq<string>, Url)>, ip: string)
    ensures ip in Configured(config) <==> exists k :: LastMention(config, ip, k)
  {
    if config != [] {
      var n := |config| - 1;
      ConfiguredSome(config[..n], ip);
      if ip in config[n].0 {
        assert LastMention(config, ip, n);
      } else {
        forall k ensures LastMention(config, ip, k) <==> LastMention(config[..n], ip, k) {
        }
      }
    }
  }

  lemma {:induction false} ConfiguredTarget(config: seq<(seq<string>, Url)>, ip: string, k: nat)
    requires LastMention(config, ip, k)
    ensures ip in Configured(config) && Configured(config)[ip] == config[k].1
  {
    var n := |config| - 1;
    LearnSets(Configured(config[..n]), config[n].0, config[n].1);
    if k < n {
      assert LastMention(config[..n], ip, k);
      ConfiguredTarget(config[..n], ip, k);
    }
  }

  /** The addresses that are configured, each with the target of its last mention. */
  lemma {:induction false} ConfiguredIs(config: seq<(seq<string>, Url)>, ip: string)
    ensures ip in Configured(config) <==> exists k :: LastMention(config, ip, k)
    ensures forall k :: LastMention(config, ip, k) ==> Configured(config)[ip] == config[k].1
  {
    ConfiguredSome(config, ip);
    forall k | LastMention(config, ip, k) ensures Configured(config)[ip] == config[k].1 {
      ConfiguredTarget(config, ip, k);
    }
  }

  /* ---- Any interleaving ---- */

  /** Requests that missed and have yet to write wait in pending, each under its own number. */
  datatype State = State(targets: Targets, pending: map<nat, Request>)

  datatype Action = Read(id: nat, req: Request) | Write(id: nat)

  predicate Misses(s: State, req: Request)
  {
    req.header.Valid? && Find(s.targets, req.ips).None?
  }

  /** A read by a request that is not waiting already, or a write by one that is. Other actions do nothing. */
  function Step(s: State, a: Action): State
  {
    match a
    case Read(id, req) => if id !in s.pending && Misses(s, req) then s.(pending := s.pending[id := req]) else s
    case Write(id) =>
      if id !in s.pending then s
      else State(Learn(s.targets, s.pending[id].ips, Target(s.pending[id])), s.pending - {id})
  }

  function Target(req: Request): Url
  {
    if req.header.Valid? then req.header.url else ""
  }

  function Run(s: State, actions: seq<Action>): State
  {
    if actions == [] then s else Step(Run(s, actions[..|actions|-1]), actions[|actions|-1])
  }

  function Start(config: Targets): State
  {
    State(config, map[])
  }

  lemma {:induction false} RunNext(s: State, actions: seq<Action>, k: nat)
    requires k < |actions|
    ensures Run(s, actions[..k+1]) == Step(Run(s, actions[..k]), actions[k])
  {
    PrefixStep(actions, k);
    assert actions[..k+1][..k] == actions[..k];
  }

  /** No request that waits to write carries an address that was configured. */
  ghost predicate ConfigSafe(config: Targets, s: State)
  {
    && (forall ip :: ip in config ==> ip in s.targets && s.targets[ip] == config[ip])
    && forall id, ip :: id in s.pending && ip in s.pending[id].ips ==> ip !in config
  }

  lemma {:induction false} ConfigSafeStep(config: Targets, s: State, a: Action)
    requires ConfigSafe(config, s)
    ensures ConfigSafe(config, Step(s, a))
  {
  }

  /** In every interleaving every configured address keeps its configured target. */
  lemma {:induction false} ConfiguredKept(config: Targets, actions: seq<Action>)
    ensures ConfigSafe(config, Run(Start(config), actions))
  {
    if actions != [] {
      ConfiguredKept(config, actions[..|actions|-1]);
      ConfigSafeStep(config, Run(Start(config), actions[..|actions|-1]), actions[|actions|-1]);
    }
  }

  /** The table never loses an address. */
  lemma {:induction false} NeverShrinks(s: State, actions: seq<Action>, k: nat)
    requires k <= |actions|
    ensures Run(s, actions[..k]).targets.Keys <= Run(s, actions).targets.Keys
    decreases |actions| - k
  {
    if k < |actions| {
      NeverShrinks(s, actions, k + 1);
      RunNext(s, actions, k);
    } else {
      PrefixAll(actions);
    }
  }

  /** Action k is the read of this request, and it missed. */
  ghost predicate MissedAt(config: Targets, actions: seq<Action>, k: nat, req: Request)
  {
    && k < |actions| && actions[k].Read? && actions[k].req == req
    && actions[k].id !in Run(Start(config), actions[..k]).pending
    && Misses(Run(Start(config), actions[..k]), req)
  }

  ghost predicate Missed(config: Targets, actions: seq<Action>, req: Request)
  {
    exists k :: MissedAt(config, actions, k, req)
  }

  /** An entry that was not configured came from the header of a request that carried the address and missed. */
  ghost predicate Learned(config: Targets, actions: seq<Action>, ip: string, url: Url)
  {
    exists req :: Missed(config, actions, req) && ip in req.ips && req.header == Valid(url)
  }

  lemma {:induction false} MissedLater(config: Targets, actions: seq<Action>, req: Request)
    requires actions != [] && Missed(config, actions[..|actions|-1], req)
    ensures Missed(config, actions, req)
  {
    var before := actions[..|actions|-1];
    var k: nat :| MissedAt(config, before, k, req);
    assert actions[..k] == before[..k];
    assert MissedAt(config, actions, k, req);
  }

  lemma {:induction false} PendingMissed(config: Targets, actions: seq<Action>, id: nat)
    requires id in Run(Start(config), actions).pending
    ensures Missed(config, actions, Run(Start(config), actions).pending[id])
    ensures Run(Start(config), actions).pending[id].header.Valid?
  {
    var n := |actions| - 1;
    var s := Run(Start(config), actions[..n]);
    var req := Run(Start(config), actions).pending[id];
    if id in s.pending {
      PendingMissed(config, actions[..n], id);
      MissedLater(config, actions, req);
    } else {
      assert MissedAt(config, actions, n, req);
    }
  }

  /** In every interleaving every entry is configured or learned. */
  lemma {:induction false} EntriesLearned(config: Targets, actions: seq<Action>, ip: string)
    requires ip in Run(Start(config), actions).targets && ip !in config
    ensures Learned(config, actions, ip, Run(Start(config), actions).targets[ip])
  {
    var n := |actions| - 1;
    var s, a := Run(Start(config), actions[..n]), actions[n];
    var url := Run(Start(config), actions).targets[ip];
    if a.Write? && a.id in s.pending && ip in s.pending[a.id].ips {
      PendingMissed(config, actions[..n], a.id);
      MissedLater(config, actions, s.pending[a.id]);
    } else {
      EntriesLearned(config, actions[..n], ip);
      var req :| Missed(config, actions[..n], req) && ip in req.ips && req.header == Valid(url);
      MissedLater(config, actions, req);
    }
  }

  /** An address in the table that no waiting request would set to another target. */
  predicate Settled(s: State, ip: string)
  {
    ip in s.targets && forall id :: id in s.pending && ip in s.pending[id].ips ==>
        Target(s.pending[id]) == s.targets[ip]
  }

  ghost predicate KeepsTarget(s: State, ip: string)
    requires ip in s.targets
  {
    forall actions :: ip in Run(s, actions).targets && Run(s, actions).targets[ip] == s.targets[ip]
  }

  lemma {:induction false} SettledForever(s: State, actions: seq<Action>, ip: string)
    requires Settled(s, ip)
    ensures Settled(Run(s, actions), ip) && Run(s, actions).targets[ip] == s.targets[ip]
  {
    if actions != [] {
      SettledForever(s, actions[..|actions|-1], ip);
    }
  }

  /**
   * An entry keeps its target through every continuation exactly when every waiting request with its address has that
   * target.
   */
  lemma {:induction false} SettledExactly(s: State, ip: string)
    requires ip in s.targets
    ensures Settled(s, ip) <==> KeepsTarget(s, ip)
  {
    if Settled(s, ip) {
      forall actions ensures ip in Run(s, actions).targets && Run(s, actions).targets[ip] == s.targets[ip] {
        SettledForever(s, actions, ip);
      }
    } else {
      var id :| id in s.pending && ip in s.pending[id].ips && Target(s.pending[id]) != s.targets[ip];
      assert [Write(id)][..0] == [];
      assert Run(s, [Write(id)]) == Step(s, Write(id));
    }
  }

  /** Requests that each finish before the next one starts. */
  function Serial(reqs: seq<Request>): seq<Action>
  {
    if reqs == [] then [] else Serial(reqs[..|reqs|-1]) + [Read(0, reqs[|reqs|-1]), Write(0)]
  }

  /** The table after requests served one by one. */
  function ServeAll(targets: Targets, reqs: seq<Request>): Targets
  {
    if reqs == [] then targets else Serve(ServeAll(targets, reqs[..|reqs|-1]), reqs[|reqs|-1]).0
  }

  lemma {:induction false} RunTwo(s: State, actions: seq<Action>, a: Action, b: Action)
    ensures Run(s, actions + [a, b]) == Step(Step(Run(s, actions), a), b)
  {
    var all := actions + [a, b];
    assert all[..|all|-1] == actions + [a];
    assert (actions + [a])[..|actions|] == actions;
  }

  /** The steps of requests in turn do what serving them whole does. */
  lemma {:induction false} SerialServes(config: Targets, reqs: seq<Request>)
    ensures Run(Start(config), Serial(reqs)) == Start(ServeAll(config, reqs))
  {
    if reqs != [] {
      var before, req := reqs[..|reqs|-1], reqs[|reqs|-1];
      SerialServes(config, before);
      RunTwo(Start(config), Serial(before), Read(0, req), Write(0));
    }
  }

  /** In a serial run no entry ever changes once it is there. */
  lemma {:induction false} SerialKeeps(targets: Targets, reqs: seq<Request>, ip: string)
    requires ip in targets
    ensures ip in ServeAll(targets, reqs) && ServeAll(targets, reqs)[ip] == targets[ip]
  {
    if reqs != [] {
      SerialKeeps(targets, reqs[..|reqs|-1], ip);
    }
  }

  /** When two requests with one address both miss before either writes, the second write replaces the first. */
  lemma {:induction false} RaceReplaces(ip: string, first: Url, second: Url)
    requires first != second
    ensures var one, two := Request([ip], Valid(first)), Request([ip], Valid(second));
      var half := [Read(1, one), Read(2, two), Write(1)];
      Run(Start(map[]), half).targets == map[ip := first]
          && Run(Start(map[]), half + [Write(2)]).targets == map[ip := second]
  {
    var one, two := Request([ip], Valid(first)), Request([ip], Valid(second));
    var a, b := [Read(1, one), Read(2, two)], [Read(1, one), Read(2, two), Write(1)];
    assert a == [] + a;
    RunTwo(Start(map[]), [], Read(1, one), Read(2, two));
    assert b[..2] == a && (b + [Write(2)])[..3] == b;
    assert [one.ips[0]] == [ip];
  }

  /**
   * A request is sent where its header says exactly when none of its addresses is known, or the first known one has
   * that target.
   */
  lemma {:induction false} HeaderFollowed(targets: Targets, ips: seq<string>, url: Url)
    ensures Serve(targets, Request(ips, Valid(url))).1 == Some(url) <==>
      forall k :: 0 <= k < |ips| && ips[k] in targets && (forall j :: 0 <= j < k ==> ips[j] !in targets) ==>
        targets[ips[k]] == url
  {
    FindFirst(targets, ips);
  }

  lemma {:induction false} FindFirst(targets: Targets, ips: seq<string>)
    ensures forall k :: 0 <= k < |ips| && ips[k] in targets && (forall j :: 0 <= j < k ==> ips[j] !in targets) ==>
      Find(targets, ips) == Some(targets[ips[k]])
    ensures Find(targets, ips).Some? ==>
      exists k :: 0 <= k < |ips| && ips[k] in targets && (forall j :: 0 <= j < k ==> ips[j] !in targets)
  {
    if ips != [] && ips[0] !in targets {
      FindFirst(targets, ips[1..]);
      forall k | 0 <= k < |ips| && ips[k] in targets && (forall j :: 0 <= j < k ==> ips[j] !in targets)
        ensures Find(targets, ips) == Some(targets[ips[k]])
      {
        assert ips[1..][k-1] == ips[k];
      }
      if Find(targets, ips).Some? {
        var k :| 0 <= k < |ips[1..]| && ips[1..][k] in targets && (forall j :: 0 <= j < k ==> ips[1..][j] !in targets);
        assert forall j :: 0 < j < k + 1 ==> ips[j] == ips[1..][j-1];
        assert ips[k+1] in targets;
      }
    }
  }

  /**
   * Whatever is served in between, a later request from the same address never gets to the other target in its header.
   */
  lemma {:induction false} LaterHeaderIgnored(ip: string, first: Url, second: Url, reqs: seq<Request>)
    ensures var after := Serve(map[], Request([ip], Valid(first))).0;
      Serve(ServeAll(after, reqs), Request([ip], Valid(second))).1 == Some(first)
  {
    var after := Serve(map[], Request([ip], Valid(first))).0;
    assert [ip][0] in after;
    SerialKeeps(after, reqs, ip);
  }
}
