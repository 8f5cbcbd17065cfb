/**
 What applyChanges (agent/router/apply.go) leaves in the kernel: routes as their lists say, and
 routes without a list, when a group is dropped because it has no peers.
 */
module RouterLeaks {
  import opened Net
  import opened SelectedRoutes
  import opened GatewayLists
  import opened Monitors
  import opened GatewayMoves
  import opened PeerFlags
  import opened Router
  import opened ServiceRuns

  // Nobody but the service list of the group writes the route.
  ghost predicate SoleOwner(gs: Groups, g: int, q: Prefix) {
    && g in gs && q in gs[g].services && !gs[g].services[q].disabled
    && (q in gs[g].peers ==> gs[g].peers[q].Has(PIF_DISABLED))
    && forall h :: h in gs && h != g ==> Untouched(gs[h], q)
  }

  /** Where cache and kernel agree on a service before applyChanges, they do afterwards, if its group is kept. */
  lemma KeptAgrees(k: Kernel, k': Kernel, gs: Groups, answers: map<int, Answers>, best: int -> SelectedRoute, g: int, q: Prefix)
    requires RoutesCommitted(k, k', gs, answers, best) && Alone(k.table.Keys, AllDestinations(gs)) && SoleOwner(gs, g, q)
    requires GroupAgrees(gs[g].services[q], Lookup(k.table, q), k.links) && PeersApplied(gs[g].peers) != map[]
    ensures var gs' := Committed(gs, answers, best);
            && g in gs'
            && if q in gs'[g].services then GroupAgrees(gs'[g].services[q], Lookup(k'.table, q), k'.links)
               else Lookup(k'.table, q).None?
  {
    hide PeersApplied, HasFlag, AppliedSlot;
    assert SoleWriter(gs, g, q) && RouteCommitted(k, k', gs, answers, best, g, q);
    AppliedAgrees(gs[g].services[q], Lookup(k.table, q), k.links, best(g).ip);
    assert Applied(gs[g].services[q], best(g).ip, Found(Lookup(k.table, q))) == AppliedAt(gs[g].services, AnswersOf(answers, g), q, best(g).ip);
  }

  // What can be read off the list before the commit.
  ghost predicate KeepsRoute(l: seq<Entry>, gw: Option<Addr>) {
    match PhaseOf(l)
    case Idle => Active(l).Some?
    case Set => true
    case Clear => false
    case Merge => exists x :: IsTarget(l, gw, x)
  }

  lemma ActiveAfter(g: Group, s: Slot, links: set<string>, best: Option<Addr>)
    requires GroupAgrees(g, s, links) && !g.disabled
    ensures var r := Applied(g, best, Found(s));
            (r.Some? && Active(r.value.entries).Some?) <==> KeepsRoute(g.entries, best)
  {
    var l := g.entries;
    match PhaseOf(l)
    case Idle =>
    case Set =>
      assert l != [] && l[0] in l;
      SetUpExact(l, s, links);
      ActivatedActive(l, Picked(l, Found(s)));
      SettledActive(l);
    case Clear =>
    case Merge =>
      MergeLeads(l, best);
  }

  /** If its group is dropped, a route is left behind exactly when the list has nothing to change and is active, is
      committed for the first time, or is merged towards a gateway that stays. */
  lemma LeftBehind(k: Kernel, k': Kernel, gs: Groups, answers: map<int, Answers>, best: int -> SelectedRoute, g: int, q: Prefix)
    requires RoutesCommitted(k, k', gs, answers, best) && Alone(k.table.Keys, AllDestinations(gs)) && SoleOwner(gs, g, q)
    requires GroupAgrees(gs[g].services[q], Lookup(k.table, q), k.links) && PeersApplied(gs[g].peers) == map[]
    ensures g !in Committed(gs, answers, best)
    ensures Lookup(k'.table, q).Some? <==> KeepsRoute(gs[g].services[q].entries, best(g).ip)
  {
    hide PeersApplied, HasFlag, AppliedSlot, KeepsRoute;
    assert SoleWriter(gs, g, q) && RouteCommitted(k, k', gs, answers, best, g, q);
    AppliedAgrees(gs[g].services[q], Lookup(k.table, q), k.links, best(g).ip);
    ActiveAfter(gs[g].services[q], Lookup(k.table, q), k.links, best(g).ip);
  }

  /** So the last peer of a group need only be deleted before its services: an installed route stays for good. */
  lemma Leak(q: Prefix, dest: Prefix, g: int, e: Entry, k: Kernel, best: int -> SelectedRoute) returns (gs: Groups)
    requires e.active && !e.pendingAdd && !e.pendingDel && e.ifname in k.links && q != dest
    requires Lookup(k.table, q) == Some(Route(e.ifname, None))
    ensures SoleOwner(gs, g, q) && GroupAgrees(gs[g].services[q], Lookup(k.table, q), k.links)
    ensures PeersApplied(gs[g].peers) == map[] && KeepsRoute(gs[g].services[q].entries, best(g).ip)
  {
    gs := map[g := RouterGroup(map[dest := Peer(e.ifname, PIF_DEL_PENDING)], map[q := Group([e], false, g)], 0)];
    assert e in [e] && Active([e]) == Some(e);
    assert !HasFlag(PIF_DEL_PENDING, PIF_ADD_PENDING) && !HasFlag(PIF_DEL_PENDING, PIF_DISABLED);
    assert PhaseOf([e]) == Idle;
  }

  /** A peer that is to be deleted survives the commit iff it is enabled and to be added as well. */
  lemma SurvivesExactly(peer: Peer)
    requires peer.Has(PIF_DEL_PENDING)
    ensures PeerApplied(peer).Some? <==> !peer.Has(PIF_DISABLED) && peer.Has(PIF_ADD_PENDING)
  {
  }

  /** So a peer that is added and deleted again before the commit stays. */
  lemma DeletionForgotten(path: NetworkPath, dest: Prefix, answers: map<int, Answers>, best: int -> SelectedRoute)
    ensures var gs := Committed(PeerDeleted(PeerAdded(map[], path, dest), path, dest), answers, best);
            path.groupID in gs && dest in gs[path.groupID].peers
  {
    var gs := PeerDeleted(PeerAdded(map[], path, dest), path, dest);
    var peer := gs[path.groupID].peers[dest];
    assert !ClaimedElsewhere(map[], path.groupID, dest);
    SurvivesExactly(peer);
    assert PeerApplied(peer).Some?;
    assert dest in PeersApplied(gs[path.groupID].peers);
  }
}
