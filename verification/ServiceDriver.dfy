/**
 The monitor object under the results about values: it takes exactly the steps over which
 ServiceRuns reasons, and a full refresh keeps the objects of the gateways that stay.
 */
module ServiceDriver {
  import opened Net
  import opened SelectedRoutes
  import opened GatewayLists
  import opened Monitors
  import opened ServiceMon
  import opened ServiceRefresh
  import R = ServiceRuns

  method Execute(sm: ServiceMonitor, op: R.Op, k: Kernel, ghost past: seq<Report>)
    returns (k': Kernel, reports: seq<Report>)
    requires sm.Valid()
    modifies sm, sm.Repr
    ensures sm.Valid()
    ensures R.Step(R.State(old(sm.Contents), k, old(sm.activeConnectionID), past), op,
                   R.State(sm.Contents, k', sm.activeConnectionID, past + reports), sm.groupID)
  {
    sm.ContentsAre();
    hide ServiceMonitor.Valid, KernelApplied, KernelRerouted, SlotClosed;
    hide AddedTo, MarkedIn, Flushed, AppliedAll, ReroutedAll, Resolved;
    ghost var s := R.State(sm.Contents, k, sm.activeConnectionID, past);
    k', reports := k, [];
    assert past + [] == past;
    match op {
      case Add(path, ip, disabled) =>
        sm.Add(path, ip, disabled);
      case Del(path, ip) =>
        var _ := sm.Del(path, ip);
      case Flush =>
        sm.Flush();
      case Apply(best) =>
        var statuses;
        ghost var answers;
        k', statuses, reports, answers := sm.Apply(best, k);
        assert R.ApplyStep(s, best, answers, R.State(sm.Contents, k', sm.activeConnectionID, past + reports), sm.groupID);
      case Reroute(sel) =>
        ghost var answers;
        k', reports, answers := sm.Reroute(sel, k);
        assert R.RerouteStep(s, sel, answers, R.State(sm.Contents, k', sm.activeConnectionID, past + reports), sm.groupID);
      case Resolve(isIPconflict) =>
        var _ := sm.ResolveIpConflict(isIPconflict);
      case Close =>
        k' := sm.Close(k);
      case Foreign(ip, slot) =>
        k' := Write(k, ip, slot);
    }
  }

  // A new configuration, as the controller sends it: the object ends up with exactly the wanted gateways, and
  // those that were there before are the very same entries.
  method Refresh(sm: ServiceMonitor, adds: seq<Wanted>, best: SelectedRoute, k: Kernel)
    returns (k': Kernel, statuses: seq<RouteStatus>, reports: seq<Report>)
    requires sm.Valid() && IsSettled(sm.Contents)
    modifies sm, sm.Repr
    ensures sm.Valid() && IsSettled(sm.Contents) && sm.routes.Keys == Prefixes(adds)
    ensures forall p, gw :: p in sm.routes ==> ((exists e :: e in sm.routes[p].list && e.gateway == gw) <==> IsWanted(adds, p, gw))
    ensures forall p :: p in sm.routes && p in old(sm.routes) ==> sm.routes[p] == old(sm.routes)[p]
    ensures forall p, e, o :: p in sm.routes && p in old(sm.routes) && e in sm.routes[p].list && o in old(sm.routes[p].list) ==>
              (e.gateway == o.gateway ==> e == o)
  {
    hide ServiceMonitor.Valid, WellFormed, AppliedAll, AddedAll, Flushed, KernelApplied, StatusesExact;
    ghost var m, was, before := sm.Contents, sm.routes, Objects(sm);
    Prepare(sm, adds);
    ghost var marked := Objects(sm);
    sm.ContentsAre();
    AllDistinct(sm);
    Survivors(was.Keys, before, marked);
    ghost var answers;
    k', statuses, reports, answers := sm.Apply(best, k);
    RefreshReplaces(m, adds, answers, best.ip);
    sm.ContentsAre();
    forall p, gw | p in sm.routes
      ensures (exists e :: e in sm.routes[p].list && e.gateway == gw) <==> gw in Gateways(sm.Contents[p].entries)
    {
      GatewaysOf(sm.routes[p].list, gw);
    }
  }

  method Prepare(sm: ServiceMonitor, adds: seq<Wanted>)
    requires sm.Valid() && IsSettled(sm.Contents)
    modifies sm, sm.Repr
    ensures sm.Valid() && sm !in sm.Repr && fresh(sm.Repr - old(sm.Repr))
    ensures sm.Contents == AddedAll(Flushed(old(sm.Contents)), adds)
    ensures forall p :: p in old(sm.routes) ==>
              p in sm.routes && sm.routes[p] == old(sm.routes)[p] && old(sm.routes[p].list) <= sm.routes[p].list
  {
    hide ServiceMonitor.Valid, Flushed, AddedTo;
    sm.ContentsAre();
    ghost var m := sm.Contents;
    sm.Flush();
    sm.ContentsAre();
    SettledKeys(m);
    for i := 0 to |adds|
      invariant sm.Valid() && fresh(sm.Repr - old(sm.Repr)) && sm !in sm.Repr
      invariant sm.Contents == AddedAll(Flushed(m), adds[..i])
      invariant forall p :: p in old(sm.routes) ==>
                  p in sm.routes && sm.routes[p] == old(sm.routes)[p] && old(sm.routes[p].list) <= sm.routes[p].list
    {
      assert adds[..i + 1][..i] == adds[..i];
      sm.Add(adds[i].path, adds[i].ip, false);
      sm.ContentsAre();
    }
    assert adds[..|adds|] == adds;
  }

  lemma AllDistinct(sm: ServiceMonitor)
    requires sm.Valid()
    ensures forall p :: p in sm.routes ==>
              forall i, j :: 0 <= i < j < |sm.routes[p].list| ==> sm.routes[p].list[i].gateway != sm.routes[p].list[j].gateway
  {
    hide ServiceMonitor.Valid;
    sm.ContentsAre();
    forall p, i, j | p in sm.routes && 0 <= i < j < |sm.routes[p].list|
      ensures sm.routes[p].list[i].gateway != sm.routes[p].list[j].gateway
    {
      assert sm.Contents[p].entries[i].gateway == sm.routes[p].list[i].gateway;
      assert sm.Contents[p].entries[j].gateway == sm.routes[p].list[j].gateway;
    }
  }

  ghost function Objects(sm: ServiceMonitor): map<Prefix, seq<RouteEntry>>
    reads sm, sm.routes.Values
  {
    map p | p in sm.routes :: sm.routes[p].list
  }

  lemma SettledKeys(m: Monitor)
    requires IsSettled(m)
    ensures Flushed(m).Keys == m.Keys
  {
  }

  lemma GatewaysOf(list: seq<RouteEntry>, gw: Addr)
    ensures (exists e :: e in list && e.gateway == gw) <==> gw in Gateways(Vals(list))
  {
    if e :| e in list && e.gateway == gw {
      var i :| 0 <= i < |list| && list[i] == e;
      assert Vals(list)[i] in Vals(list);
    }
    if gw in Gateways(Vals(list)) {
      var i :| 0 <= i < |list| && Vals(list)[i].gateway == gw;
      assert list[i] in list;
    }
  }

  // Lists have distinct gateways, so what has the gateway of an old entry is that entry.
  lemma Survivors(keys: set<Prefix>, before: map<Prefix, seq<RouteEntry>>, after: map<Prefix, seq<RouteEntry>>)
    requires keys <= before.Keys && keys <= after.Keys
    requires forall p :: p in keys ==> before[p] <= after[p]
    requires forall p :: p in keys ==> forall i, j :: 0 <= i < j < |after[p]| ==> after[p][i].gateway != after[p][j].gateway
    ensures forall p, e, o :: p in keys && e in after[p] && o in before[p] && o.gateway == e.gateway ==> e == o
  {
    forall p, e, o | p in keys && e in after[p] && o in before[p] && o.gateway == e.gateway ensures e == o {
      var i :| 0 <= i < |after[p]| && after[p][i] == e;
      var j :| 0 <= j < |before[p]| && before[p][j] == o;
      assert after[p][j] == o;
    }
  }
}
