/**
 A connection group as the objects it consists of (agent/router/entry.go): its peer monitor and
 its service monitor, which together do what Router says of the group as a value.
 */
module RouterGroups {
  import opened Net
  import opened SelectedRoutes
  import opened PeerFlags
  import opened GatewayLists
  import opened Monitors
  import opened Router
  import PathSelection
  import PeerStats
  import PingData
  import opened PeerMon
  import opened ServiceMon
  import opened RouterClaims

  // ---- What the peer monitor does, as the router sees it ---------------------------------

  lemma AddedPeers(rs: map<Prefix, PeerStats.Record>, ifname: string, pubKey: string, dest: Prefix, connID: int, disabled: bool)
    ensures PeersOf(rs[dest := PeerStats.Added(if dest in rs then rs[dest] else PeerStats.BLANK, ifname, pubKey, connID, disabled)])
            == AddedPeer(PeersOf(rs), ifname, dest, disabled)
  {
    hide AddedFlags;
  }

  lemma MarkedPeers(rs: map<Prefix, PeerStats.Record>, dest: Prefix)
    ensures var ps := PeersOf(rs);
            && (dest in ps <==> dest in rs)
            && (dest in rs ==> PeersOf(rs[dest := PeerStats.Marked(rs[dest])]) == ps[dest := MarkedPeer(ps[dest])])
  {
    hide DeletedFlags;
  }

  lemma AllMarkedPeers(rs: map<Prefix, PeerStats.Record>)
    ensures var ps := PeersOf(rs); PeersOf(map p | p in rs :: PeerStats.Marked(rs[p])) == map p | p in ps :: MarkedPeer(ps[p])
  {
    hide DeletedFlags;
  }

  lemma PingedPeers(rs: map<Prefix, PeerStats.Record>, results: PingData.Results)
    ensures PeersOf(map p | p in rs :: PeerStats.Pinged(rs[p], p, results)) == PeersOf(rs)
  {
  }

  // All that the peers and the selector of a group hold.
  datatype Detail = Detail(records: map<Prefix, PeerStats.Record>, count: nat, cfg: PathSelection.Config, held: Held)

  // The selector has been called, with the records as they are now, and has answered.
  ghost predicate Answered(was: Detail, now: Detail, route: SelectedRoute) {
    now.count == was.count && now.cfg == was.cfg && Selects(PeerStats.ViewOf(now.records, now.count), now.cfg, was.held, route, now.held)
  }

  // What a commit and a round of pings do to a group beyond its Value.
  ghost predicate DetailCommitted(was: Detail, now: Detail, route: SelectedRoute) {
    now.records == KeptRecords(was.records) && Answered(was, now, route)
  }

  ghost predicate DetailPinged(was: Detail, now: Detail, results: PingData.Results, route: SelectedRoute) {
    now.records == (map p | p in was.records :: PeerStats.Pinged(was.records[p], p, results)) && Answered(was, now, route)
  }

  class RouterGroupEntry {
    const peerMonitor: PeerMonitor
    const serviceMonitor: ServiceMonitor

    ghost predicate Inv()
      reads serviceMonitor, serviceMonitor.Repr, peerMonitor.peerList, peerMonitor.peerList.Repr
    {
      peerMonitor.Inv() && serviceMonitor.Valid() && PeerObjects() !! ServiceObjects()
    }

    ghost function PeerObjects(): set<object>
      reads peerMonitor.peerList
    {
      peerMonitor.peerList.Repr + {peerMonitor.peerList, peerMonitor.pathSelector.Object()}
    }

    ghost function ServiceObjects(): set<object>
      reads serviceMonitor
    {
      serviceMonitor.Repr + {serviceMonitor}
    }

    ghost function Value(): RouterGroup
      requires Inv()
      reads serviceMonitor, serviceMonitor.Repr, peerMonitor.peerList, peerMonitor.peerList.Repr
    {
      RouterGroup(PeersOf(peerMonitor.peerList.Records()), serviceMonitor.Contents, serviceMonitor.activeConnectionID)
    }

    ghost function Details(): Detail
      requires Inv()
      reads serviceMonitor, serviceMonitor.Repr, peerMonitor.peerList, peerMonitor.peerList.Repr, peerMonitor.pathSelector.Object()
    {
      Detail(peerMonitor.peerList.Records(), peerMonitor.peerList.avgCount, peerMonitor.pathSelector.Settings(),
             peerMonitor.pathSelector.Memory())
    }

    constructor (cfg: PathSelection.Config, direct: bool, gid: int)
      requires cfg.averageSize >= 1
      ensures Inv() && Value() == RouterGroup(map[], map[], 0) && serviceMonitor.groupID == gid
      ensures fresh(PeerObjects() + ServiceObjects())
    {
      var pm := new PeerMonitor(cfg, direct);
      var sm := new ServiceMonitor(gid);
      peerMonitor, serviceMonitor := pm, sm;
    }

    method PeerAdd(path: NetworkPath, dest: Prefix, isIPconflict: bool)
      requires Inv()
      modifies PeerObjects()
      ensures Inv() && fresh(PeerObjects() - old(PeerObjects()))
      ensures Value() == old(Value()).(peers := AddedPeer(old(Value()).peers, path.ifname, dest, isIPconflict))
      ensures var rs := old(Details()).records;
              Details() == old(Details()).(records := rs[dest :=
                PeerStats.Added(if dest in rs then rs[dest] else PeerStats.BLANK, path.ifname, path.publicKey, path.connectionID, isIPconflict)])
    {
      hide PeerStats.PeerList.Inv, PeerStats.PeerList.Records, ServiceMonitor.Valid, PeersCommitted, KernelApplied, KernelRerouted, StatusesExact, Selects, PeerStats.ViewOf;
      hide PeersApplied, AppliedAll, ReroutedAll, KeptRecords, PeersOf, AddedPeer, MarkedPeer, Flushed, Reported;
      ghost var rs := peerMonitor.peerList.Records();
      AddedPeers(rs, path.ifname, path.publicKey, dest, path.connectionID, isIPconflict);
      peerMonitor.AddNode(path.ifname, path.publicKey, dest, path.connectionID, isIPconflict);
    }

    method PeerDel(dest: Prefix)
      requires Inv()
      modifies PeerObjects()
      ensures Inv() && PeerObjects() == old(PeerObjects())
      ensures var ps := old(Value()).peers;
              Value() == old(Value()).(peers := if dest in ps then ps[dest := MarkedPeer(ps[dest])] else ps)
      ensures var rs := old(Details()).records;
              Details() == old(Details()).(records := if dest in rs then rs[dest := PeerStats.Marked(rs[dest])] else rs)
    {
      hide PeerStats.PeerList.Inv, PeerStats.PeerList.Records, ServiceMonitor.Valid, PeersCommitted, KernelApplied, KernelRerouted, StatusesExact, Selects, PeerStats.ViewOf;
      hide PeersApplied, AppliedAll, ReroutedAll, KeptRecords, PeersOf, AddedPeer, MarkedPeer, Flushed, Reported;
      ghost var rs := peerMonitor.peerList.Records();
      MarkedPeers(rs, dest);
      peerMonitor.DelNode(dest);
    }

    method Flush()
      requires Inv()
      modifies PeerObjects(), ServiceObjects()
      ensures Inv() && PeerObjects() == old(PeerObjects()) && ServiceObjects() == old(ServiceObjects())
      ensures Value() == GroupFlushed(old(Value()))
    {
      hide PeerStats.PeerList.Inv, PeerStats.PeerList.Records, ServiceMonitor.Valid, PeersCommitted, KernelApplied, KernelRerouted, StatusesExact, Selects, PeerStats.ViewOf;
      hide PeersApplied, AppliedAll, ReroutedAll, KeptRecords, PeersOf, AddedPeer, MarkedPeer, Flushed, Reported;
      serviceMonitor.ContentsAre();
      AllMarkedPeers(peerMonitor.peerList.Records());
      peerMonitor.Flush();
      serviceMonitor.Flush();
    }

    // One group of applyChanges; `a` and `b` are the answers of the route searches for peers and services.
    method Apply(k: Kernel)
      returns (k': Kernel, statuses: seq<RouteStatus>, reports: seq<Report>, route: SelectedRoute,
               ghost k1: Kernel, ghost a: Answers, ghost b: Answers)
      requires Inv()
      modifies PeerObjects(), ServiceObjects()
      ensures Inv() && PeerObjects() == old(PeerObjects()) && ServiceObjects() == old(ServiceObjects())
      ensures Value() == GroupCommitted(old(Value()), b, route) && DetailCommitted(old(Details()), Details(), route)
      ensures PeersCommitted(k, k1, old(Value()).peers, a) && KernelApplied(k1, k', old(Value()).services, route.ip, b)
      ensures reports == Reported(old(Value()).connID, route.id, serviceMonitor.groupID, route.reason.Text())
      ensures StatusesExact(statuses, old(Value()).services, k1.links, b)
    {
      hide PeerStats.PeerList.Inv, PeerStats.PeerList.Records, ServiceMonitor.Valid, PeersCommitted, KernelApplied, KernelRerouted, StatusesExact, Selects, PeerStats.ViewOf;
      hide PeersApplied, AppliedAll, ReroutedAll, KeptRecords, PeersOf, AddedPeer, MarkedPeer, Flushed, Reported;
      serviceMonitor.ContentsAre();
      KeptPeers(peerMonitor.peerList.Records());
      k', a := peerMonitor.Apply(k);
      k1 := k';
      route := peerMonitor.BestPath();
      k', statuses, reports, b := serviceMonitor.Apply(route, k');
    }

    // One group of PingProcess: new samples, and services follow the best path.
    method PingProcess(results: PingData.Results, k: Kernel)
      returns (k': Kernel, reports: seq<Report>, route: SelectedRoute, ghost answers: Answers)
      requires Inv()
      modifies PeerObjects(), ServiceObjects()
      ensures Inv() && PeerObjects() == old(PeerObjects()) && ServiceObjects() == old(ServiceObjects())
      ensures Value() == GroupRerouted(old(Value()), Some(route)) && DetailPinged(old(Details()), Details(), results, route)
      ensures KernelRerouted(k, k', old(Value()).services, route.ip, answers)
      ensures reports == Reported(old(Value()).connID, route.id, serviceMonitor.groupID, route.reason.Text())
    {
      hide PeerStats.PeerList.Inv, PeerStats.PeerList.Records, ServiceMonitor.Valid, PeersCommitted, KernelApplied, KernelRerouted, StatusesExact, Selects, PeerStats.ViewOf;
      hide PeersApplied, AppliedAll, ReroutedAll, KeptRecords, PeersOf, AddedPeer, MarkedPeer, Flushed, Reported;
      serviceMonitor.ContentsAre();
      PingedPeers(peerMonitor.peerList.Records(), results);
      peerMonitor.PingProcess(results);
      route := peerMonitor.BestPath();
      k', reports, answers := serviceMonitor.Reroute(Some(route), k);
    }
  }

  // ---- All groups ------------------------------------------------------------------------

  // No two groups share an object.
  ghost predicate Apart(objects: map<int, set<object>>) {
    forall g, h :: g in objects && h in objects && g != h ==> objects[g] !! objects[h]
  }

  lemma ApartFrom(objects: map<int, set<object>>, g: int)
    requires Apart(objects) && g in objects
    ensures forall h :: h in objects && h != g ==> objects[h] !! objects[g]
  {
  }

  lemma ApartLess(objects: map<int, set<object>>, gids: set<int>)
    requires Apart(objects)
    ensures Apart(objects - gids)
  {
  }

  function BestOf(bests: map<int, SelectedRoute>): int -> SelectedRoute {
    g => if g in bests then bests[g] else DELETED
  }

  // The groups of `todo` have not been committed yet; those of `gone` have no peers left.
  ghost predicate Progress(k: Kernel, k': Kernel, was: Groups, now: Groups, gone: set<int>, todo: set<int>,
                           answers: map<int, Answers>, bests: map<int, SelectedRoute>) {
    && now.Keys == was.Keys && todo <= was.Keys && answers.Keys == bests.Keys == was.Keys - todo
    && (forall g :: g in was ==> now[g] == if g in todo then was[g] else GroupCommitted(was[g], answers[g], bests[g]))
    && (forall g :: g in gone <==> g in was && g !in todo && PeersApplied(was[g].peers) == map[])
    && CommitUnderway(k, k', was, todo, answers, BestOf(bests))
  }

  lemma ProgressStarts(k: Kernel, was: Groups)
    ensures Progress(k, k, was, was, {}, was.Keys, map[], map[])
  {
    CommitBegins(k, was, BestOf(map[]));
  }

  lemma ProgressContinues(k: Kernel, k0: Kernel, k1: Kernel, k': Kernel, was: Groups, now: Groups, now': Groups, gone: set<int>, todo: set<int>,
                          answers: map<int, Answers>, bests: map<int, SelectedRoute>, gid: int, a: Answers, b: Answers,
                          route: SelectedRoute, empty: bool)
    requires Progress(k, k0, was, now, gone, todo, answers, bests) && gid in todo
    requires TurnCommitted(now, now', gid, route, k0, k1, k', a, b) && (empty <==> now'[gid].peers == map[])
    ensures Progress(k, k', was, now', if empty then gone + {gid} else gone,
                     todo - {gid}, answers[gid := b], bests[gid := route])
  {
    hide PeersApplied, AppliedAll, PeersCommitted, KernelApplied, CommitUnderway;
    var bests' := bests[gid := route];
    CommitRetold(k, k0, was, todo, answers, BestOf(bests), BestOf(bests'));
    CommitProceeds(k, k0, k1, k', was, todo, answers, BestOf(bests'), gid, a, b);
  }

  lemma ProgressEnds(k: Kernel, k': Kernel, was: Groups, now: Groups, gone: set<int>, answers: map<int, Answers>,
                     bests: map<int, SelectedRoute>)
    requires Progress(k, k', was, now, gone, {}, answers, bests)
    ensures now - gone == Committed(was, answers, BestOf(bests)) && RoutesCommitted(k, k', was, answers, BestOf(bests))
  {
    hide PeersApplied, CommitUnderway, RoutesCommitted, GroupCommitted;
    CommitFinishes(k, k', was, answers, BestOf(bests));
    CommittedIs(was, now, gone, answers, BestOf(bests));
  }

  ghost predicate AllFollowed(was: map<int, Detail>, now: map<int, Detail>, bests: map<int, SelectedRoute>, todo: set<int>) {
    && now.Keys == was.Keys && was.Keys <= bests.Keys + todo
    && forall g :: g in was ==> if g in todo then now[g] == was[g] else g in bests && DetailCommitted(was[g], now[g], bests[g])
  }

  ghost predicate TurnFollowed(was: map<int, Detail>, now: map<int, Detail>, g: int, route: SelectedRoute) {
    g in was && g in now && now == was[g := now[g]] && DetailCommitted(was[g], now[g], route)
  }

  // One group has been committed, and has followed the route.
  ghost predicate TurnCommitted(was: Groups, now: Groups, g: int, route: SelectedRoute, k: Kernel, k1: Kernel, k': Kernel,
                               a: Answers, b: Answers) {
    && g in was && now == was[g := GroupCommitted(was[g], b, route)]
    && PeersCommitted(k, k1, was[g].peers, a) && KernelApplied(k1, k', was[g].services, route.ip, b)
  }

  lemma NoneFollowed(was: map<int, Detail>)
    ensures AllFollowed(was, was, map[], was.Keys)
  {
  }

  lemma FollowedNext(was: map<int, Detail>, now: map<int, Detail>, bests: map<int, SelectedRoute>, todo: set<int>,
                     now': map<int, Detail>, g: int, route: SelectedRoute)
    requires AllFollowed(was, now, bests, todo) && g in todo && TurnFollowed(now, now', g, route)
    ensures AllFollowed(was, now', bests[g := route], todo - {g})
  {
    hide DetailCommitted;
  }

  class RouterEntries {
    var routes: map<int, RouterGroupEntry>
    ghost var Repr: set<object>

    ghost predicate Inv()
      reads this, Repr
    {
      && this !in Repr
      && (forall g :: g in routes ==> Inside(g))
      && Apart(Objects())
      && (forall g {:trigger routes[g].Inv()} :: g in routes ==> routes[g].Inv())
    }

    ghost function Objects(): map<int, set<object>>
      reads this, set g | g in routes :: routes[g].peerMonitor.peerList, set g | g in routes :: routes[g].serviceMonitor
    {
      map g | g in routes :: routes[g].PeerObjects() + routes[g].ServiceObjects()
    }

    ghost predicate Inside(g: int)
      requires g in routes
      reads this, Repr
    {
      var e := routes[g];
      && e.peerMonitor.peerList in Repr && e.serviceMonitor in Repr
      && e.PeerObjects() <= Repr && e.ServiceObjects() <= Repr
    }

    ghost function Values(): Groups
      requires Inv()
      reads this, Repr
    {
      map g | g in routes :: routes[g].Value()
    }

    ghost function AllDetails(): map<int, Detail>
      requires Inv()
      reads this, Repr
    {
      map g | g in routes :: routes[g].Details()
    }

    constructor ()
      ensures Inv() && fresh(Repr) && routes == map[]
    {
      routes, Repr := map[], {};
    }

    lemma SameGroups()
      requires Inv()
      ensures AllDetails().Keys == Values().Keys
    {
    }

    method Keys() returns (ks: set<int>)
      requires Inv()
      ensures ks == Values().Keys
    {
      ks := routes.Keys;
    }

    method HasNoPeers(gid: int) returns (b: bool)
      requires Inv() && gid in Values()
      ensures b <==> Values()[gid].peers == map[]
    {
      assert routes[gid].Inv();
      b := routes[gid].peerMonitor.peerList.peers == map[];
      assert !b ==> routes[gid].peerMonitor.peerList.peers.Keys != {};
    }

    method Forget(gids: set<int>)
      requires Inv()
      modifies this`routes
      ensures Inv() && Values() == old(Values()) - gids && AllDetails() == old(AllDetails()) - gids
    {
      hide RouterGroupEntry.Inv, RouterGroupEntry.Value, RouterGroupEntry.Details, Apart;
      ApartLess(Objects(), gids);
      routes := routes - gids;
      assert Objects() == old(Objects()) - gids;
      forall g | g in routes
        ensures routes[g].Inv() && routes[g].Value() == old(routes[g].Value()) && routes[g].Details() == old(routes[g].Details())
      {
        assert old(routes[g].Inv());
      }
    }

    // Only objects of one group have changed, and the group is well.
    twostate predicate OnlyAt(gid: int)
      reads this, Repr
    {
      && old(Inv()) && routes == old(routes) && Repr == old(Repr) && gid in routes && Inside(gid) && routes[gid].Inv()
      && routes[gid].PeerObjects() == old(routes[gid].PeerObjects())
      && routes[gid].ServiceObjects() == old(routes[gid].ServiceObjects())
      && forall o: object :: o in Repr && o !in old(routes[gid].PeerObjects() + routes[gid].ServiceObjects()) ==> unchanged(o)
    }

    // Working on one group leaves the others as they were.
    twostate lemma OthersWell(gid: int)
      requires OnlyAt(gid)
      ensures Objects() == old(Objects())
      ensures forall h {:trigger routes[h].Inv()} :: h in routes && h != gid ==> routes[h].Inv()
      ensures forall h :: h in routes && h != gid ==>
                routes[h].Value() == old(routes[h].Value()) && routes[h].Details() == old(routes[h].Details())
      ensures forall h :: h in routes ==> Inside(h)
    {
      hide RouterGroupEntry.Inv, RouterGroupEntry.Value, RouterGroupEntry.Details, Apart;
      ApartFrom(old(Objects()), gid);
      forall h | h in routes && h != gid
        ensures Inside(h) && routes[h].Inv()
        ensures routes[h].Value() == old(routes[h].Value()) && routes[h].Details() == old(routes[h].Details())
        ensures routes[h].PeerObjects() + routes[h].ServiceObjects() == old(Objects())[h]
      {
        assert old(routes[h].Inv()) && old(Objects())[h] !! old(Objects())[gid];
      }
      assert forall h :: h in routes ==> Objects()[h] == old(Objects())[h];
    }

    twostate lemma OthersKept(gid: int)
      requires OnlyAt(gid)
      ensures Inv()
      ensures Values() == old(Values())[gid := routes[gid].Value()]
      ensures AllDetails() == old(AllDetails())[gid := routes[gid].Details()]
    {
      hide RouterGroupEntry.Inv, RouterGroupEntry.Value, RouterGroupEntry.Details, Apart, RouterEntries.Inside, RouterEntries.Objects;
      OthersWell(gid);
      forall h | h in routes && h != gid ensures Values()[h] == old(Values())[h] && AllDetails()[h] == old(AllDetails())[h] {
        assert routes[h].Value() == old(routes[h].Value()) && routes[h].Details() == old(routes[h].Details());
      }
    }

    // The loop body of ApplyChanges.
    method ApplyOne(gid: int, k: Kernel)
      returns (k': Kernel, statuses: seq<RouteStatus>, reports: seq<Report>, route: SelectedRoute,
               ghost k1: Kernel, ghost a: Answers, ghost b: Answers)
      requires Inv() && gid in Values()
      modifies Repr
      ensures Inv() && routes == old(routes) && Repr == old(Repr)
      ensures TurnCommitted(old(Values()), Values(), gid, route, k, k1, k', a, b)
      ensures TurnFollowed(old(AllDetails()), AllDetails(), gid, route) && AllDetails().Keys == Values().Keys
    {
      hide RouterGroupEntry.Inv, RouterGroupEntry.Value, RouterGroupEntry.Details, PeersCommitted, KernelApplied, StatusesExact;
      hide GroupCommitted, DetailCommitted, Apart;
      assert routes[gid].Inv();
      k', statuses, reports, route, k1, a, b := routes[gid].Apply(k);
      OthersKept(gid);
    }

    // See Router.ApplyChanges.
    method ApplyChanges(k: Kernel)
      returns (k': Kernel, statuses: seq<RouteStatus>, reports: seq<Report>,
               ghost answers: map<int, Answers>, ghost bests: map<int, SelectedRoute>, ghost details: map<int, Detail>)
      requires Inv()
      modifies this`routes, Repr
      ensures Inv()
      ensures Values() == Committed(old(Values()), answers, BestOf(bests))
      ensures RoutesCommitted(k, k', old(Values()), answers, BestOf(bests))
      // `details` are those of all groups when they are committed; each group follows what its own selector answers.
      ensures AllFollowed(old(AllDetails()), details, bests, {})
      ensures AllDetails().Keys == Values().Keys && AllDetails().Items <= details.Items
    {
      hide RoutesCommitted, PeersCommitted, KernelApplied, Committed, GroupCommitted, Progress, RouterEntries.Inv, RouterEntries.Values;
      hide DetailCommitted, AllFollowed, RouterEntries.AllDetails;
      ghost var was, first := Values(), AllDetails();
      k', statuses, reports, answers, bests := k, [], [], map[], map[];
      var deleteGIDs: set<int> := {};
      var todo := Keys();
      ProgressStarts(k, was);
      NoneFollowed(first);
      SameGroups();
      while todo != {}
        invariant Inv() && Repr == old(Repr) && todo <= Values().Keys
        invariant Progress(k, k', was, Values(), deleteGIDs, todo, answers, bests)
        invariant AllDetails().Keys == Values().Keys && AllFollowed(first, AllDetails(), bests, todo)
      {
        var gid := Next(todo);
        ghost var k0, now, before := k', Values(), AllDetails();
        var rsc, pad, route;
        ghost var k1, a, b;
        k', rsc, pad, route, k1, a, b := ApplyOne(gid, k');
        var empty := HasNoPeers(gid);
        FollowedNext(first, before, bests, todo, AllDetails(), gid, route);
        ProgressContinues(k, k0, k1, k', was, now, Values(), deleteGIDs, todo, answers, bests, gid, a, b, route, empty);
        statuses, reports := statuses + rsc, reports + pad;
        answers, bests := answers[gid := b], bests[gid := route];
        if empty {
          deleteGIDs := deleteGIDs + {gid};
        }
        todo := todo - {gid};
      }
      ProgressEnds(k, k', was, Values(), deleteGIDs, answers, bests);
      details := AllDetails();
      Forget(deleteGIDs);
    }
  }
}
