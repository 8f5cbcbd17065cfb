/**
 Host routes to the tunnel peers over the default gateway, with a use count per
 address (agent/hostroute).
 */
module HostRoutes {
  import opened Net

  const UINT32: nat := 0x1_0000_0000

  // `pending`: the route is wanted but not installed yet.
  datatype HostEntry = HostEntry(count: nat, pending: bool)

  type Cache = map<Prefix, HostEntry>

  // ---- The cache as a counter ---------------------------------------------------------

  function Count(c: Cache, ip: Prefix): nat {
    if ip in c then c[ip].count else 0
  }

  // The counter is 32 bits wide.
  function Added(c: Cache, ip: Prefix): Cache {
    if ip in c then c[ip := c[ip].(count := (c[ip].count + 1) % UINT32)]
    else c[ip := HostEntry(1, true)]
  }

  function Removed(c: Cache, ip: Prefix): Cache {
    if ip in c && c[ip].count > 0 then c[ip := c[ip].(count := c[ip].count - 1)] else c
  }

  function Flushed(c: Cache): Cache {
    map ip | ip in c :: c[ip].(count := 0)
  }

  function Applied(c: Cache): Cache {
    map ip | ip in c && c[ip].count > 0 :: c[ip].(pending := false)
  }

  function AddedAll(c: Cache, ips: seq<Prefix>): Cache {
    if ips == [] then c else Added(AddedAll(c, ips[..|ips| - 1]), ips[|ips| - 1])
  }

  function RemovedAll(c: Cache, ips: seq<Prefix>): Cache {
    if ips == [] then c else Removed(RemovedAll(c, ips[..|ips| - 1]), ips[|ips| - 1])
  }

  datatype Op = Add(ip: Prefix) | Del(ip: Prefix) | Flush | Apply

  function Done(c: Cache, op: Op): Cache {
    match op
    case Add(ip) => Added(c, ip)
    case Del(ip) => Removed(c, ip)
    case Flush => Flushed(c)
    case Apply => Applied(c)
  }

  function Run(ops: seq<Op>): Cache {
    if ops == [] then map[] else Done(Run(ops[..|ops| - 1]), ops[|ops| - 1])
  }

  // Additions minus deletions since the last flush, never below zero.
  function Tally(ops: seq<Op>, ip: Prefix): nat {
    if ops == [] then 0
    else var n := Tally(ops[..|ops| - 1], ip);
         match ops[|ops| - 1]
         case Add(a) => if a == ip then n + 1 else n
         case Del(a) => if a == ip && n > 0 then n - 1 else n
         case Flush => 0
         case Apply => n
  }

  lemma {:induction false} TallyBound(ops: seq<Op>, ip: Prefix)
    ensures Tally(ops, ip) <= |ops|
  {
    if ops != [] {
      TallyBound(ops[..|ops| - 1], ip);
    }
  }

  /** Over any run of fewer than 2^32 operations, in which commits may be interspersed, the cache is the
      saturating counter of each address. */
  lemma {:induction false} CountsTally(ops: seq<Op>, ip: Prefix)
    requires |ops| < UINT32
    ensures Count(Run(ops), ip) == Tally(ops, ip)
  {
    if ops != [] {
      CountsTally(ops[..|ops| - 1], ip);
      TallyBound(ops[..|ops| - 1], ip);
    }
  }

  /** One use more or less: the counter starts over after 2^32 - 1, and stays at zero. */
  lemma CountsExactly(c: Cache, ip: Prefix, q: Prefix)
    requires Count(c, ip) <= 0xFFFF_FFFF
    ensures Count(Added(c, ip), q) == if q != ip then Count(c, q) else if Count(c, ip) == 0xFFFF_FFFF then 0 else Count(c, ip) + 1
    ensures Count(Removed(c, ip), q) == if q == ip && Count(c, ip) > 0 then Count(c, ip) - 1 else Count(c, q)
    ensures Count(Flushed(c), q) == 0
  {
  }

  // ---- Agreement with the kernel ----------------------------------------------------------

  function ToAdd(c: Cache): set<Prefix> {
    set ip | ip in c && c[ip].count > 0 && c[ip].pending
  }

  function ToDelete(c: Cache): set<Prefix> {
    set ip | ip in c && c[ip].count == 0 && !c[ip].pending
  }

  // A visit makes the call that the entry asks for; `found` is what a search answers then.
  function SlotApplied(k: Kernel, c: Cache, own: Route, q: Prefix, found: Option<string>): Slot {
    var s := Lookup(k.table, q);
    if q in ToAdd(c) then AddSlot(s, k.links, found.Some?, own)
    else if q in ToDelete(c) then DelSlot(s, k.links, own.ifname)
    else s
  }

  ghost predicate SlotsApplied(k: Kernel, k': Kernel, c: Cache, own: Route, answers: Answers) {
    && k'.links == k.links && AreAnswers(k.table, c.Keys, answers)
    && forall q :: Lookup(k'.table, q) == SlotApplied(k, c, own, q, Answer(answers, q))
  }

  // Whether the call for one entry, if any, succeeds.
  predicate CallOk(k: Kernel, c: Cache, own: Route, ip: Prefix, found: Option<string>) {
    && (ip in ToAdd(c) ==> own.ifname in k.links && (found.Some? ==> Lookup(k.table, ip) == Some(own)))
    && (ip in ToDelete(c) ==> own.ifname in k.links)
  }

  // What is not pending is installed.
  ghost predicate Installed(c: Cache, k: Kernel, own: Route) {
    forall ip :: ip in c && !c[ip].pending ==> Lookup(k.table, ip) == Some(own)
  }

  // No other route is in the way of one to be added; one of our own may be there already.
  ghost predicate FreeToAdd(c: Cache, k: Kernel, own: Route) {
    forall ip :: ip in ToAdd(c) ==> Lookup(k.table, ip).None? || Lookup(k.table, ip) == Some(own)
  }

  // A route of our own that the cache does not hold as installed and does not want.
  ghost predicate Stale(c: Cache, k: Kernel, own: Route, ip: Prefix) {
    Lookup(k.table, ip) == Some(own) && (ip !in c || (c[ip].pending && c[ip].count == 0))
  }

  /** After a commit what the cache holds is installed exactly when no other route was in the way. Our routes
      in the kernel then are those of the addresses in use, and those that were stale. */
  lemma CommitInstalls(c: Cache, k: Kernel, k': Kernel, own: Route, answers: Answers)
    requires Installed(c, k, own) && own.ifname in k.links && Alone(k.table.Keys, c.Keys)
    requires SlotsApplied(k, k', c, own, answers)
    ensures Installed(Applied(c), k', own) <==> FreeToAdd(c, k, own)
    ensures FreeToAdd(c, k, own) ==>
              forall ip :: Lookup(k'.table, ip) == Some(own) <==> Count(c, ip) > 0 || Stale(c, k, own, ip)
  {
    hide AreAnswers;
    var c' := Applied(c);
    forall ip | ip in c ensures Answer(answers, ip) == Found(Lookup(k.table, ip)) {
      AnswerFor(k, c, answers, ip);
    }
    if ip :| ip in ToAdd(c) && Lookup(k.table, ip).Some? && Lookup(k.table, ip) != Some(own) {
      assert Lookup(k'.table, ip) == Lookup(k.table, ip);
      assert ip in c' && !c'[ip].pending;
    }
  }

  lemma AnswerFor(k: Kernel, c: Cache, answers: Answers, ip: Prefix)
    requires Alone(k.table.Keys, c.Keys) && AreAnswers(k.table, c.Keys, answers) && ip in c
    ensures Answer(answers, ip) == Found(Lookup(k.table, ip))
  {
    AnswerAlone(k.table, c.Keys, ip, answers[ip]);
  }

  // Somebody else may change routes, but not take away one that we have installed.
  ghost predicate OthersOnly(c: Cache, k: Kernel, k': Kernel, own: Route) {
    && k'.links == k.links
    && forall ip :: ip in c && !c[ip].pending && Lookup(k.table, ip) == Some(own) ==> Lookup(k'.table, ip) == Some(own)
  }

  ghost predicate Commit(c: Cache, k: Kernel, k': Kernel, own: Route) {
    && Alone(k.table.Keys, c.Keys) && FreeToAdd(c, k, own)
    && exists answers :: SlotsApplied(k, k', c, own, answers)
  }

  // `kernels` are the routing tables around the steps of a run in which every call of a commit succeeds.
  ghost predicate IsRun(ops: seq<Op>, kernels: seq<Kernel>, own: Route) {
    && |kernels| == |ops| + 1 && own.ifname in kernels[0].links
    && forall i :: 0 <= i < |ops| ==>
         if ops[i] == Apply then Commit(Run(ops[..i]), kernels[i], kernels[i + 1], own)
         else OthersOnly(Run(ops[..i]), kernels[i], kernels[i + 1], own)
  }

  lemma RunStep(ops: seq<Op>, kernels: seq<Kernel>, own: Route, i: nat)
    requires IsRun(ops, kernels, own) && i < |ops|
    ensures |kernels| == |ops| + 1 && Run(ops[..i + 1]) == Done(Run(ops[..i]), ops[i])
    ensures if ops[i] == Apply then Commit(Run(ops[..i]), kernels[i], kernels[i + 1], own)
            else OthersOnly(Run(ops[..i]), kernels[i], kernels[i + 1], own)
  {
    assert ops[..i + 1][..i] == ops[..i];
  }

  lemma CommitDone(c: Cache, k: Kernel, k': Kernel, own: Route)
    requires Installed(c, k, own) && own.ifname in k.links && Commit(c, k, k', own)
    ensures Installed(Done(c, Apply), k', own) && k'.links == k.links
    ensures forall ip :: Lookup(k'.table, ip) == Some(own) <==> Count(c, ip) > 0 || Stale(c, k, own, ip)
  {
    var answers :| SlotsApplied(k, k', c, own, answers);
    CommitInstalls(c, k, k', own, answers);
  }

  /** Throughout a run what is not pending is installed. After a commit our routes are those of the addresses in
      use, and those that an earlier instance has left for addresses nobody asked for. */
  lemma {:induction false} RunInstalled(ops: seq<Op>, kernels: seq<Kernel>, own: Route, n: nat)
    requires IsRun(ops, kernels, own) && n <= |ops|
    ensures Installed(Run(ops[..n]), kernels[n], own) && own.ifname in kernels[n].links
    ensures 0 < n < UINT32 && ops[n - 1] == Apply ==>
              forall ip :: Lookup(kernels[n].table, ip) == Some(own) <==>
                           Tally(ops[..n], ip) > 0 || Stale(Run(ops[..n - 1]), kernels[n - 1], own, ip)
  {
    if n == 0 {
      assert Run(ops[..0]) == map[];
    } else {
      hide Installed, Commit, OthersOnly, Stale, Lookup, Done, Run, Tally, IsRun;
      RunInstalled(ops, kernels, own, n - 1);
      RunStep(ops, kernels, own, n - 1);
      var c := Run(ops[..n - 1]);
      if ops[n - 1] == Apply {
        CommitDone(c, kernels[n - 1], kernels[n], own);
        TallyKept(ops, n);
      } else {
        KeepsInstalled(c, ops[n - 1], kernels[n - 1], kernels[n], own);
      }
    }
  }

  // A commit changes no count.
  lemma TallyKept(ops: seq<Op>, n: nat)
    requires 0 < n <= |ops| && ops[n - 1] == Apply
    ensures n < UINT32 ==> forall ip :: Count(Run(ops[..n - 1]), ip) == Tally(ops[..n], ip)
  {
    assert ops[..n][..n - 1] == ops[..n - 1];
    if n < UINT32 {
      forall ip ensures Count(Run(ops[..n - 1]), ip) == Tally(ops[..n], ip) {
        CountsTally(ops[..n - 1], ip);
      }
    }
  }

  lemma KeepsInstalled(c: Cache, op: Op, k: Kernel, k': Kernel, own: Route)
    requires Installed(c, k, own) && op != Apply && OthersOnly(c, k, k', own)
    ensures k'.links == k.links && Installed(Done(c, op), k', own)
  {
  }

  // Our routes are exactly those the cache holds as installed.
  ghost predicate InStep(c: Cache, k: Kernel, own: Route) {
    forall ip :: (ip in c && !c[ip].pending) <==> Lookup(k.table, ip) == Some(own)
  }

  // Nobody else adds a route like ours.
  ghost predicate NoneAdded(k: Kernel, k': Kernel, own: Route) {
    forall ip :: Lookup(k'.table, ip) == Some(own) ==> Lookup(k.table, ip) == Some(own)
  }

  /** A run that starts without routes of our own, and in which nobody else adds one, never has a stale one: after a
      commit our routes are exactly those of the addresses in use. */
  lemma {:induction false} RunInStep(ops: seq<Op>, kernels: seq<Kernel>, own: Route, n: nat)
    requires IsRun(ops, kernels, own) && n <= |ops| && InStep(map[], kernels[0], own)
    requires forall i :: 0 <= i < |ops| && ops[i] != Apply ==> NoneAdded(kernels[i], kernels[i + 1], own)
    ensures InStep(Run(ops[..n]), kernels[n], own)
    ensures 0 < n < UINT32 && ops[n - 1] == Apply ==>
              forall ip :: Lookup(kernels[n].table, ip) == Some(own) <==> Tally(ops[..n], ip) > 0
  {
    hide InStep, NoneAdded;
    if n == 0 {
      assert Run(ops[..0]) == map[];
    } else {
      hide Installed, Commit, OthersOnly, Stale, Lookup, Done, Run, Tally, IsRun;
      RunInStep(ops, kernels, own, n - 1);
      RunInstalled(ops, kernels, own, n - 1);
      RunStep(ops, kernels, own, n - 1);
      var c := Run(ops[..n - 1]);
      NothingStale(c, kernels[n - 1], own);
      if ops[n - 1] == Apply {
        CommitDone(c, kernels[n - 1], kernels[n], own);
        CommitStaysInStep(c, kernels[n], own);
        TallyKept(ops, n);
      } else {
        KeepsInStep(c, ops[n - 1], kernels[n - 1], kernels[n], own);
      }
    }
  }

  lemma NothingStale(c: Cache, k: Kernel, own: Route)
    requires InStep(c, k, own)
    ensures forall ip :: !Stale(c, k, own, ip)
  {
  }

  lemma CommitStaysInStep(c: Cache, k': Kernel, own: Route)
    requires forall ip :: Lookup(k'.table, ip) == Some(own) <==> Count(c, ip) > 0
    ensures InStep(Done(c, Apply), k', own)
  {
  }

  lemma KeepsInStep(c: Cache, op: Op, k: Kernel, k': Kernel, own: Route)
    requires InStep(c, k, own) && op != Apply && OthersOnly(c, k, k', own) && NoneAdded(k, k', own)
    ensures InStep(Done(c, op), k', own)
  {
  }

  // Everything is in use and installed.
  ghost predicate IsSettled(c: Cache) {
    forall ip :: ip in c ==> c[ip].count > 0 && !c[ip].pending
  }

  function Addresses(ips: seq<Prefix>): set<Prefix> {
    set ip | ip in ips
  }

  lemma {:induction false} RefreshEntries(c: Cache, ips: seq<Prefix>, ip: Prefix)
    requires IsSettled(c) && |ips| < UINT32
    ensures var r := AddedAll(Flushed(c), ips);
            && (ip in r <==> ip in c || ip in ips)
            && (ip in r ==> r[ip].pending == (ip !in c) && r[ip].count <= |ips| && (r[ip].count > 0 <==> ip in ips))
  {
    if ips != [] {
      var h := ips[..|ips| - 1];
      assert ips == h + [ips[|ips| - 1]];
      RefreshEntries(c, h, ip);
    }
  }

  /** A new configuration touches only the difference: the commit deletes exactly the addresses that are no
      longer wanted, adds exactly the new ones, and leaves the cache settled on the wanted ones. */
  lemma RefreshTouchesDifference(c: Cache, ips: seq<Prefix>)
    requires IsSettled(c) && |ips| < UINT32
    ensures var r := AddedAll(Flushed(c), ips);
            && ToDelete(r) == c.Keys - Addresses(ips)
            && ToAdd(r) == Addresses(ips) - c.Keys
            && Applied(r).Keys == Addresses(ips) && IsSettled(Applied(r))
  {
    var r := AddedAll(Flushed(c), ips);
    forall ip
      ensures ip in ToDelete(r) <==> ip in c && ip !in ips
      ensures ip in ToAdd(r) <==> ip in ips && ip !in c
      ensures ip in Applied(r) <==> ip in ips
    {
      RefreshEntries(c, ips, ip);
    }
  }

  // Every call for the entries that have been visited succeeds.
  ghost predicate AllOk(k: Kernel, c: Cache, own: Route, answers: Answers) {
    forall ip :: ip in answers ==> CallOk(k, c, own, ip, answers[ip])
  }

  /** A commit succeeds iff the interface exists, or nothing is to be changed, and no other route is in the way of what is to
      be added. */
  lemma SucceedsExactly(k: Kernel, c: Cache, own: Route, answers: Answers)
    requires Alone(k.table.Keys, c.Keys) && AreAnswers(k.table, c.Keys, answers)
    ensures AllOk(k, c, own, answers) <==>
            forall ip :: ip in c && c[ip].pending == (c[ip].count > 0) ==>
              && own.ifname in k.links
              && (c[ip].pending ==> Lookup(k.table, ip).None? || Lookup(k.table, ip) == Some(own))
  {
    hide AreAnswers, Lookup, Alone;
    forall ip | ip in c ensures ip in answers && answers[ip] == Found(Lookup(k.table, ip)) {
      AnswerFor(k, c, answers, ip);
      AnswersKeys(k, c, answers);
    }
    AnswersKeys(k, c, answers);
  }

  lemma AnswersKeys(k: Kernel, c: Cache, answers: Answers)
    requires AreAnswers(k.table, c.Keys, answers)
    ensures answers.Keys == c.Keys
  {
  }

  lemma OneMore(k: Kernel, c: Cache, own: Route, answers: Answers, ip: Prefix, found: Option<string>)
    requires ip !in answers
    ensures AllOk(k, c, own, answers[ip := found]) <==> AllOk(k, c, own, answers) && CallOk(k, c, own, ip, found)
  {
    hide CallOk;
    if AllOk(k, c, own, answers[ip := found]) {
      assert answers[ip := found][ip] == found;
      forall q | q in answers ensures CallOk(k, c, own, q, answers[q]) {
        assert answers[ip := found][q] == answers[q];
      }
    }
  }

  lemma CallIs(k: Kernel, c: Cache, own: Route, ip: Prefix, found: Option<string>)
    requires ip in c
    ensures CallOk(k, c, own, ip, found) <==>
            if c[ip].count == 0 then c[ip].pending || own.ifname in k.links
            else !c[ip].pending || (own.ifname in k.links && (found.Some? ==> Lookup(k.table, ip) == Some(own)))
  {
  }

  // ---- The host router ----------------------------------------------------------------------

  // The default gateway and its interface, as the system reports them.
  datatype DefaultRoute = DefaultRoute(gw: Addr, ifname: string)

  class HostRouter {
    var gw: Option<Addr>
    var ifname: string
    var routes: Cache

    constructor ()
      ensures routes == map[] && gw == None
    {
      gw, ifname, routes := None, "", map[];
    }

    method Add(addrs: seq<Prefix>)
      modifies this`routes
      ensures routes == AddedAll(old(routes), addrs)
    {
      for i := 0 to |addrs|
        invariant routes == AddedAll(old(routes), addrs[..i])
      {
        assert addrs[..i + 1][..i] == addrs[..i];
        var ip := addrs[i];
        if ip !in routes {
          routes := routes[ip := HostEntry(0, true)];
        }
        routes := routes[ip := routes[ip].(count := (routes[ip].count + 1) % UINT32)];
      }
      assert addrs[..|addrs|] == addrs;
    }

    method Del(addrs: seq<Prefix>) returns (ok: bool)
      modifies this`routes
      ensures routes == RemovedAll(old(routes), addrs)
      ensures ok <==> forall ip :: ip in addrs ==> ip in old(routes)
    {
      var errCount := 0;
      for i := 0 to |addrs|
        invariant routes == RemovedAll(old(routes), addrs[..i]) && routes.Keys == old(routes).Keys
        invariant errCount == 0 <==> forall ip :: ip in addrs[..i] ==> ip in old(routes)
        invariant errCount >= 0
      {
        assert addrs[..i + 1] == addrs[..i] + [addrs[i]];
        assert addrs[..i + 1][..i] == addrs[..i];
        var ip := addrs[i];
        if ip !in routes {
          errCount := errCount + 1;
        } else if routes[ip].count > 0 {
          routes := routes[ip := routes[ip].(count := routes[ip].count - 1)];
        }
      }
      assert addrs[..|addrs|] == addrs;
      ok := errCount == 0;
    }

    method Flush()
      modifies this`routes
      ensures routes == Flushed(old(routes))
    {
      var todo := routes.Keys;
      while todo != {}
        invariant todo <= routes.Keys == old(routes).Keys
        invariant forall ip :: ip in routes ==>
                    routes[ip] == if ip in todo then old(routes)[ip] else old(routes)[ip].(count := 0)
      {
        var ip :| ip in todo;
        routes := routes[ip := routes[ip].(count := 0)];
        todo := todo - {ip};
      }
    }

    // `system` is the default route, when there is one; it is asked for only while none is known.
    method Apply(system: Option<DefaultRoute>, k: Kernel) returns (k': Kernel, ok: bool, ghost answers: Answers)
      modifies this
      ensures old(gw).Some? ==> gw == old(gw) && ifname == old(ifname)
      ensures old(gw).None? && system.Some? ==> gw == Some(system.value.gw) && ifname == system.value.ifname
      ensures old(gw).None? && system.None? ==> !ok && k' == k && gw == None && routes == old(routes)
      ensures gw.Some? ==> routes == Applied(old(routes))
      ensures gw.Some? ==>
                && SlotsApplied(k, k', old(routes), Route(ifname, gw), answers)
                && (ok <==> AllOk(k, old(routes), Route(ifname, gw), answers))
    {
      if gw.None? {
        if system.None? {
          return k, false, map[];
        }
        gw, ifname := Some(system.value.gw), system.value.ifname;
      }
      k', ok, answers := ApplyRoutes(k);
    }

    method ApplyRoutes(k: Kernel) returns (k': Kernel, ok: bool, ghost answers: Answers)
      modifies this`routes
      ensures routes == Applied(old(routes))
      ensures SlotsApplied(k, k', old(routes), Route(ifname, gw), answers)
      ensures ok <==> AllOk(k, old(routes), Route(ifname, gw), answers)
    {
      hide CallOk, Lookup, Put, Underway, IsSearch, AreAnswers, Shadowed;
      var delIPs: set<Prefix> := {};
      var errCount := 0;
      ghost var own, c := Route(ifname, gw), routes;
      ghost var after := (q: Prefix, found: Option<string>) => SlotApplied(k, c, own, q, found);
      k', answers := k, map[];
      var todo := routes.Keys;
      NothingVisited(k, c.Keys, after);
      while todo != {}
        invariant errCount >= 0
        invariant routes.Keys == c.Keys && todo <= c.Keys && delIPs <= c.Keys - todo && answers.Keys == c.Keys - todo
        invariant forall ip :: ip in todo ==> routes[ip] == c[ip]
        invariant forall ip :: ip in c && ip !in todo ==> (ip in delIPs <==> c[ip].count == 0)
        invariant forall ip :: ip in c && ip !in todo && c[ip].count > 0 ==> routes[ip] == c[ip].(pending := false)
        invariant Underway(k, k', c.Keys, todo, answers, after)
        invariant errCount == 0 <==> AllOk(k, c, own, answers)
      {
        var ip :| ip in todo;
        ghost var found := SearchAnswers(k'.table, ip);
        SearchShadowed(k'.table, ip, found);
        Visiting(k, k', c.Keys, todo, answers, after, ip, found);
        OneMore(k, c, own, answers, ip, found);
        var good := true;
        CallIs(k, c, own, ip, found);
        if routes[ip].count == 0 {
          delIPs := delIPs + {ip};
          if !routes[ip].pending {
            k', good := RouteDel(k', ifname, ip);
          }
        } else if routes[ip].pending {
          k', good := RouteAdd(k', ifname, gw, ip);
          routes := routes[ip := routes[ip].(pending := false)];
        }
        errCount := if good then errCount else errCount + 1;
        answers := answers[ip := found];
        todo := todo - {ip};
      }
      AllVisited(k, k', c.Keys, answers, after);
      routes := routes - delIPs;
      assert routes == Applied(c);
      ok := errCount == 0;
    }

    method Close(cleanupOnExit: bool, k: Kernel) returns (k': Kernel)
      modifies this`routes
      ensures routes == map[]
      ensures k'.links == k.links
      ensures forall q :: Lookup(k'.table, q) ==
                if cleanupOnExit && q in old(routes) && !old(routes)[q].pending
                then DelSlot(Lookup(k.table, q), k.links, ifname) else Lookup(k.table, q)
    {
      k' := k;
      if cleanupOnExit {
        var todo := routes.Keys;
        while todo != {}
          invariant todo <= routes.Keys && routes == old(routes) && k'.links == k.links
          invariant forall q :: Lookup(k'.table, q) ==
                      if q !in todo && q in routes && !routes[q].pending
                      then DelSlot(Lookup(k.table, q), k.links, ifname) else Lookup(k.table, q)
        {
          var ip :| ip in todo;
          if !routes[ip].pending {
            var ok;
            PutChanges(k'.table, ip, DelSlot(Lookup(k'.table, ip), k.links, ifname));
            k', ok := RouteDel(k', ifname, ip);
          }
          todo := todo - {ip};
        }
      }
      routes := map[];
    }
  }

  // What the object installs are routes `own`, when the system tells it `system` if asked.
  ghost predicate Owns(h: HostRouter, system: Option<DefaultRoute>, own: Route)
    reads h
  {
    if h.gw.Some? then own == Route(h.ifname, h.gw)
    else system.Some? ==> own == Route(system.value.ifname, Some(system.value.gw))
  }

  // One operation of the object is one step of the run it is in. Without a default gateway nothing is committed; with
  // one, a commit is such a step if every call can succeed.
  method Execute(h: HostRouter, op: Op, system: Option<DefaultRoute>, k: Kernel, ghost own: Route,
                 ghost ops: seq<Op>, ghost kernels: seq<Kernel>)
    returns (k': Kernel)
    requires h.routes == Run(ops) && IsRun(ops, kernels, own) && k == kernels[|ops|] && Owns(h, system, own)
    modifies h
    ensures Owns(h, system, own)
    ensures op == Apply && old(h.gw).None? && system.None? ==> h.routes == Run(ops) && k' == k
    ensures op == Apply && (old(h.gw).Some? || system.Some?) ==>
              && h.routes == Run(ops + [op])
              && (Alone(k.table.Keys, Run(ops).Keys) && FreeToAdd(Run(ops), k, own) ==> IsRun(ops + [op], kernels + [k'], own))
    ensures op != Apply ==> h.routes == Run(ops + [op]) && k' == k && IsRun(ops + [op], kernels + [k'], own)
  {
    hide Added, Removed, Flushed, Applied, SlotsApplied, IsRun, FreeToAdd, Alone;
    assert (ops + [op])[..|ops|] == ops;
    k' := k;
    match op {
      case Add(ip) =>
        One(Run(ops), ip);
        h.Add([ip]);
      case Del(ip) =>
        One(Run(ops), ip);
        var _ := h.Del([ip]);
      case Flush =>
        h.Flush();
      case Apply =>
        var ok;
        ghost var answers;
        k', ok, answers := h.Apply(system, k);
    }
    if op != Apply || (h.gw.Some? && Alone(k.table.Keys, Run(ops).Keys) && FreeToAdd(Run(ops), k, own)) {
      RunExtended(ops, kernels, own, op, k');
    }
  }

  lemma One(c: Cache, ip: Prefix)
    ensures AddedAll(c, [ip]) == Added(c, ip) && RemovedAll(c, [ip]) == Removed(c, ip)
  {
    assert [ip][..0] == [];
  }

  lemma RunExtended(ops: seq<Op>, kernels: seq<Kernel>, own: Route, op: Op, k': Kernel)
    requires IsRun(ops, kernels, own)
    requires if op == Apply then Commit(Run(ops), kernels[|ops|], k', own)
             else OthersOnly(Run(ops), kernels[|ops|], k', own)
    ensures IsRun(ops + [op], kernels + [k'], own)
  {
    var ops', kernels' := ops + [op], kernels + [k'];
    forall i | 0 <= i < |ops'|
      ensures if ops'[i] == Apply then Commit(Run(ops'[..i]), kernels'[i], kernels'[i + 1], own)
              else OthersOnly(Run(ops'[..i]), kernels'[i], kernels'[i + 1], own)
    {
      assert ops'[..i] == ops[..i];
      assert ops[..|ops|] == ops;
    }
  }
}
