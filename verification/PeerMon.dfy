/**
 The peer monitor of a connection group (agent/router/peermon): the list of peers, their own
 routes in the kernel, and the selector that answers with the best of them.
 */
module PeerMon {
  import opened Net
  import opened SelectedRoutes
  import opened PeerFlags
  import opened PathSelection
  import opened DirectRoute
  import opened PeerStats
  import R = Router
  import PingData

  // ---- What the router sees of the peers ----------------------------------------------

  function PeerOf(r: Record): R.Peer {
    R.Peer(r.ifname, r.flags)
  }

  function PeersOf(rs: map<Prefix, Record>): map<Prefix, R.Peer> {
    map p | p in rs :: PeerOf(rs[p])
  }

  lemma PeersChanged(rs: map<Prefix, Record>, p: Prefix, r: Record)
    ensures PeersOf(rs[p := r]) == PeersOf(rs)[p := PeerOf(r)]
  {
  }

  // A commit resets the flags of an enabled peer that has something pending.
  function Reset(r: Record): Record {
    var peer := PeerOf(r);
    if !peer.Has(PIF_DISABLED) && (peer.Has(PIF_ADD_PENDING) || peer.Has(PIF_DEL_PENDING)) then r.(flags := PIF_NONE) else r
  }

  // The records that a commit leaves: no sample is lost.
  function KeptRecords(rs: map<Prefix, Record>): map<Prefix, Record> {
    map p | p in rs && R.PeerApplied(PeerOf(rs[p])).Some? :: Reset(rs[p])
  }

  lemma KeptPeers(rs: map<Prefix, Record>)
    ensures PeersOf(KeptRecords(rs)) == R.PeersApplied(PeersOf(rs))
  {
    hide HasFlag;
  }

  /** A commit drops exactly the peers to be deleted, and takes nothing but flags from the others. */
  lemma KeptExactly(rs: map<Prefix, Record>, p: Prefix)
    ensures p in KeptRecords(rs) <==>
            p in rs && !(HasFlag(rs[p].flags, PIF_DEL_PENDING)
                         && (HasFlag(rs[p].flags, PIF_DISABLED) || !HasFlag(rs[p].flags, PIF_ADD_PENDING)))
    ensures p in KeptRecords(rs) ==>
              var r, k := rs[p], KeptRecords(rs)[p];
              && k == r.(flags := k.flags)
              && k.flags == if HasFlag(r.flags, PIF_DISABLED) || !HasFlag(r.flags, PIF_ADD_PENDING) then r.flags else PIF_NONE
  {
    hide HasFlag;
  }

  lemma KeptRest(rs: map<Prefix, Record>, gone: seq<Prefix>)
    requires forall p :: p in gone <==> p in rs && R.PeerApplied(PeerOf(rs[p])).None?
    ensures UpdatedBut(rs, {}, (p, r) => Reset(r)) - Listed(gone) == KeptRecords(rs)
  {
    hide HasFlag, Reset, R.PeerApplied;
  }

  // ---- What a selector answers -----------------------------------------------------------

  // The order to delete the route, or the address and connection of a peer.
  ghost predicate IsOffer(ps: Peers, route: SelectedRoute) {
    if route.ip.None? then route.id == 0
    else exists p :: p in ps && route.ip == Some(p.addr) && route.id == ps[p].connectionID
  }

  lemma SelectedIsOffer(ps: Peers, cfg: Config, best: Option<Prefix>, reason: Reason)
    ensures IsOffer(ps, Selected(ps, cfg, best, reason))
  {
  }

  // What a selector remembers between its calls.
  datatype Held = SpeedHeld(best: Option<Prefix>) | DirectHeld(st: DrState, last: Reason)

  // Without peers the route is forgotten.
  function Forgotten(h: Held): Held {
    match h
    case SpeedHeld(_) => SpeedHeld(None)
    case DirectHeld(st, _) => DirectHeld(st.(best := None), DELETED.reason)
  }

  // One call: from the momentary best and the public route it comes upon, the selector makes its step and answers.
  ghost predicate SelectsFrom(ps: Peers, cfg: Config, h: Held, newIp: Prefix, pub: Option<Prefix>, route: SelectedRoute, h': Held) {
    && newIp in ps && IsMomentaryBest(ps, newIp)
    && match h
       case SpeedHeld(best) =>
         var r := SpeedNext(ps, cfg, best, newIp);
         h' == SpeedHeld(Some(r)) && route == Selected(ps, cfg, Some(r), SpeedReason(ps, cfg, best, newIp))
       case DirectHeld(st, last) =>
         && IsPublicRoute(ps, pub)
         && var st', why := DrNext(ps, cfg, st, newIp, pub), DrReason(ps, cfg, st, newIp, pub, last);
            route == Selected(ps, cfg, st'.best, why) && h' == DirectHeld(st', route.reason)
  }

  ghost predicate Selects(ps: Peers, cfg: Config, h: Held, route: SelectedRoute, h': Held) {
    if ps == map[] then route == DELETED && h' == Forgotten(h)
    else exists newIp, pub :: SelectsFrom(ps, cfg, h, newIp, pub, route, h')
  }

  /** Whatever is answered, it is no stranger's. */
  lemma SelectsOffer(ps: Peers, cfg: Config, h: Held, route: SelectedRoute, h': Held)
    requires Selects(ps, cfg, h, route, h')
    ensures IsOffer(ps, route)
  {
    hide Selected, SpeedNext, SpeedReason, DrNext, DrReason, IsMomentaryBest, IsPublicRoute;
    if ps != map[] {
      var newIp, pub :| SelectsFrom(ps, cfg, h, newIp, pub, route, h');
      match h
      case SpeedHeld(best) =>
        SelectedIsOffer(ps, cfg, h'.best, SpeedReason(ps, cfg, best, newIp));
      case DirectHeld(st, last) =>
        ChosenArePeers(ps, newIp, pub);
        SelectedIsOffer(ps, cfg, h'.st.best, DrReason(ps, cfg, st, newIp, pub, last));
    }
  }

  /** When all peers are valid, and for the direct selector measured throughout, the answer is a peer with the least loss of
      all, unless even that one is too lossy. */
  lemma SelectsLeastLoss(ps: Peers, cfg: Config, h: Held, route: SelectedRoute, h': Held)
    requires Selects(ps, cfg, h, route, h') && ps != map[] && AllValid(ps)
    requires h.DirectHeld? ==> FullyMeasured(ps)
    ensures exists p :: MinLoss(ps, p)
              && (route.ip.Some? <==> cfg.deleteLoss <= 0.0 || ps[p].loss < cfg.deleteLoss / 100.0)
              && (route.ip.Some? ==> route.ip == Some(p.addr) && route.id == ps[p].connectionID)
  {
    hide IsMomentaryBest, IsPublicRoute, Selected, SpeedNext, SpeedReason, DrNext, DrReason;
    var newIp, pub :| SelectsFrom(ps, cfg, h, newIp, pub, route, h');
    match h
    case SpeedHeld(best) =>
      SpeedMinLoss(ps, cfg, best, newIp);
      SelectedExactly(ps, cfg, h'.best.value, SpeedReason(ps, cfg, best, newIp));
    case DirectHeld(st, last) =>
      ChosenArePeers(ps, newIp, pub);
      DrMinLoss(ps, cfg, st, newIp, pub);
      SelectedExactly(ps, cfg, h'.st.best.value, DrReason(ps, cfg, st, newIp, pub, last));
  }

  datatype PathSelector = Speed(speed: SpeedRouteSelector) | Direct(direct: DirectRouteSelector) {
    function Object(): object {
      match this
      case Speed(s) => s
      case Direct(d) => d
    }

    predicate Watches(peerList: PeerList) {
      match this
      case Speed(s) => s.reader.peerlist == peerList
      case Direct(d) => d.reader.peerlist == peerList
    }

    function Settings(): Config {
      match this
      case Speed(s) => s.reader.config
      case Direct(d) => d.reader.config
    }

    function Memory(): Held
      reads Object()
    {
      match this
      case Speed(s) => SpeedHeld(s.bestRoute)
      case Direct(d) => DirectHeld(d.State(), d.reason)
    }
  }

  class PeerMonitor {
    const peerList: PeerList
    const pathSelector: PathSelector

    ghost predicate Inv()
      reads peerList, peerList.Repr
    {
      peerList.Inv() && pathSelector.Watches(peerList) && pathSelector.Object() !in peerList.Repr
    }

    constructor (cfg: Config, direct: bool)
      requires cfg.averageSize >= 1
      ensures Inv() && peerList.peers == map[] && pathSelector.Direct? == direct && pathSelector.Settings() == cfg
      ensures peerList.avgCount == cfg.averageSize
      ensures pathSelector.Memory() ==
              if direct then DirectHeld(DrState(None, Candidate(None, 0)), Reason(NoChange, 0.0, 0.0)) else SpeedHeld(None)
      ensures fresh(peerList) && fresh(peerList.Repr) && fresh(pathSelector.Object())
    {
      var pl := new PeerList(cfg.averageSize);
      peerList := pl;
      if direct {
        var d := new DirectRouteSelector(pl, cfg);
        pathSelector := Direct(d);
      } else {
        var s := new SpeedRouteSelector(pl, cfg);
        pathSelector := Speed(s);
      }
    }

    method BestPath() returns (route: SelectedRoute)
      requires Inv()
      modifies pathSelector.Object()
      ensures Inv() && peerList.Records() == old(peerList.Records())
      ensures Selects(ViewOf(peerList.Records(), peerList.avgCount), pathSelector.Settings(), old(pathSelector.Memory()),
                      route, pathSelector.Memory())
    {
      hide PeerList.Inv, PeerList.View, PeerList.Records, ViewOf;
      hide Selected, SpeedNext, SpeedReason, DrNext, DrReason, IsMomentaryBest, IsPublicRoute, SelectsFrom;
      peerList.ViewIs();
      ghost var ps, cfg, h := peerList.View(), pathSelector.Settings(), pathSelector.Memory();
      match pathSelector
      case Speed(s) =>
        ghost var newIp;
        route, newIp := s.BestPath();
        if ps != map[] {
          ChosenArePeers(ps, newIp.value, None);
          SpeedSelects(ps, cfg, s.bestRoute, h.best, newIp.value, route);
        }
      case Direct(d) =>
        ghost var newIp, publicIp;
        route, newIp, publicIp := d.BestPath();
        if ps != map[] {
          ChosenArePeers(ps, newIp.value, publicIp);
          DirectSelects(ps, cfg, h.st, h.last, newIp.value, publicIp, route);
        }
    }

    // The commit of the peers; see Router.ApplyPeers.
    method Apply(k: Kernel) returns (k': Kernel, ghost answers: Answers)
      requires Inv()
      modifies peerList`peers, peerList.Repr
      ensures Inv() && peerList.Repr == old(peerList.Repr)
      ensures peerList.Records() == KeptRecords(old(peerList.Records()))
      ensures R.PeersCommitted(k, k', PeersOf(old(peerList.Records())), answers)
    {
      hide PeerList.Inv, PeerList.View, PeerList.Records, UpdatedBut, R.PeersCommitted, Underway, AreAnswers, HasFlag, Reset, R.PeerApplied, R.PeerSlot;
      ghost var rs := peerList.Records();
      ghost var after := (q: Prefix, found: Option<string>) => R.PeerSlot(k, PeersOf(rs), q, found);
      ghost var f := (p: Prefix, r: Record) => Reset(r);
      k', answers := k, map[];
      var deleteIPs: seq<Prefix> := [];
      var todo := peerList.Keys();
      NothingVisited(k, rs.Keys, after);
      UpdatedNone(rs, f);
      while todo != {}
        invariant Inv() && peerList.Repr == old(peerList.Repr) && todo <= rs.Keys
        invariant peerList.Records() == UpdatedBut(rs, todo, f)
        invariant forall p :: p in deleteIPs <==> p in rs && p !in todo && R.PeerApplied(PeerOf(rs[p])).None?
        invariant Underway(k, k', rs.Keys, todo, answers, after)
      {
        var ip := Next(todo);
        UpdatedNext(rs, todo, f, ip);
        ghost var k0 := k';
        ghost var found := SearchAnswers(k'.table, ip);
        Visiting(k, k', rs.Keys, todo, answers, after, ip, found);
        var gone;
        k', gone := Visit(ip, k', found);
        SameSlot(k, k0, rs, UpdatedBut(rs, todo, f), ip, found);
        if gone {
          deleteIPs := deleteIPs + [ip];
        }
        answers := answers[ip := found];
        todo := todo - {ip};
      }
      AllVisited(k, k', rs.Keys, answers, after);
      AllCommitted(k, k', rs, answers);
      KeptRest(rs, deleteIPs);
      peerList.Delete(deleteIPs);
    }

    // The loop body of Apply.
    method Visit(ip: Prefix, k: Kernel, ghost found: Option<string>) returns (k': Kernel, gone: bool)
      requires Inv() && IsPeer(peerList.Records(), ip) && IsSearch(k.table, ip, found)
      modifies peerList.Repr
      ensures Inv() && peerList.Repr == old(peerList.Repr)
      ensures peerList.Records() == old(peerList.Records())[ip := Reset(old(peerList.Records()[ip]))]
      ensures gone <==> R.PeerApplied(PeerOf(old(peerList.Records()[ip]))).None?
      ensures k' == Write(k, ip, R.PeerSlot(k, PeersOf(old(peerList.Records())), ip, found))
    {
      hide StatsOf, PeerInfo.Inv, Separate, Reset, R.PeerSlot, R.PeerApplied, IsSearch;
      ghost var rs := peerList.Records();
      var peer := peerList.peers[ip];
      var reset;
      k', gone, reset := CommitRoute(ip, k, R.Peer(peer.ifname, peer.flags), found);
      SameSlot(k, k, rs, map[ip := rs[ip]], ip, found);
      assert PeersOf(map[ip := rs[ip]]) == map[ip := PeerOf(rs[ip])];
      SettledFlags(rs[ip]);
      if reset {
        peerList.Reflag(ip, PIF_NONE);
      } else {
        assert rs[ip := rs[ip]] == rs;
      }
    }

    method AddNode(ifname: string, pubKey: string, endpoint: Prefix, connID: int, disabled: bool)
      requires Inv()
      modifies peerList, peerList.Repr
      ensures Inv() && fresh(peerList.Repr - old(peerList.Repr))
      ensures peerList.Records() == old(peerList.Records())[endpoint :=
                Added(if endpoint in old(peerList.Records()) then old(peerList.Records()[endpoint]) else BLANK,
                      ifname, pubKey, connID, disabled)]
    {
      hide PeerList.Inv;
      peerList.AddPeer(ifname, pubKey, endpoint, connID, disabled);
    }

    method DelNode(endpoint: Prefix)
      requires Inv()
      modifies peerList.Repr
      ensures Inv() && peerList.Repr == old(peerList.Repr)
      ensures var rs := old(peerList.Records());
              peerList.Records() == if endpoint in rs then rs[endpoint := Marked(rs[endpoint])] else rs
    {
      peerList.DelPeer(endpoint);
    }

    method Flush()
      requires Inv()
      modifies peerList.Repr
      ensures Inv() && peerList.Repr == old(peerList.Repr)
      ensures peerList.Records() == map p | p in old(peerList.Records()) :: Marked(old(peerList.Records())[p])
    {
      hide PeerList.Inv, PeerList.View, PeerList.Records, UpdatedBut;
      ghost var rs, f := peerList.Records(), (p: Prefix, r: Record) => Marked(r);
      var todo := peerList.Keys();
      UpdatedNone(rs, f);
      while todo != {}
        invariant Inv() && peerList.Repr == old(peerList.Repr) && todo <= rs.Keys && peerList.Records() == UpdatedBut(rs, todo, f)
      {
        var ip := Next(todo);
        UpdatedNext(rs, todo, f, ip);
        MarkOne(ip);
        todo := todo - {ip};
      }
      UpdatedAll(rs, f);
    }

    method MarkOne(ip: Prefix)
      requires Inv() && IsPeer(peerList.Records(), ip)
      modifies peerList.Repr
      ensures Inv() && peerList.Repr == old(peerList.Repr)
      ensures peerList.Records() == old(peerList.Records())[ip := Marked(old(peerList.Records()[ip]))]
    {
      peerList.DelPeer(ip);
    }

    method PingProcess(results: PingData.Results)
      requires Inv()
      modifies peerList.Repr
      ensures Inv() && peerList.Repr == old(peerList.Repr)
      ensures peerList.Records() == map p | p in old(peerList.Records()) :: Pinged(old(peerList.Records())[p], p, results)
    {
      peerList.PingProcess(results);
    }
  }

  // What the commit of one peer does to its route, and whether the peer goes or its flags are reset.
  method CommitRoute(ip: Prefix, k: Kernel, peer: R.Peer, ghost found: Option<string>)
    returns (k': Kernel, gone: bool, reset: bool)
    requires IsSearch(k.table, ip, found)
    ensures k' == Write(k, ip, R.PeerSlot(k, map[ip := peer], ip, found))
    ensures gone <==> R.PeerApplied(peer).None?
    ensures reset <==> !peer.Has(PIF_DISABLED) && (peer.Has(PIF_ADD_PENDING) || peer.Has(PIF_DEL_PENDING))
  {
    hide Lookup, Put, IsSearch, Shadowed, HasFlag;
    SearchShadowed(k.table, ip, found);
    PutSame(k.table, ip);
    k', gone, reset := k, false, false;
    if peer.Has(PIF_DISABLED) {
      gone := peer.Has(PIF_DEL_PENDING);
    } else if peer.Has(PIF_ADD_PENDING) {
      var ok;
      k', ok := RouteAdd(k, peer.ifname, None, ip);
      reset := true;
    } else if peer.Has(PIF_DEL_PENDING) {
      var ok;
      k', ok := RouteDel(k, peer.ifname, ip);
      gone, reset := true, true;
    }
  }

  lemma SettledFlags(r: Record)
    ensures var peer := PeerOf(r);
            Reset(r) == if !peer.Has(PIF_DISABLED) && (peer.Has(PIF_ADD_PENDING) || peer.Has(PIF_DEL_PENDING))
                          then r.(flags := PIF_NONE) else r
  {
  }

  lemma ChosenArePeers(ps: Peers, best: Prefix, pub: Option<Prefix>)
    requires IsMomentaryBest(ps, best) && (pub.Some? ==> IsPublicRoute(ps, pub))
    ensures best in ps && (pub.Some? ==> pub.value in ps)
  {
  }

  lemma SpeedSelects(ps: Peers, cfg: Config, held: Option<Prefix>, best: Option<Prefix>, newIp: Prefix, route: SelectedRoute)
    requires newIp in ps && IsMomentaryBest(ps, newIp) && held == Some(SpeedNext(ps, cfg, best, newIp))
    requires route == Selected(ps, cfg, held, SpeedReason(ps, cfg, best, newIp))
    ensures Selects(ps, cfg, SpeedHeld(best), route, SpeedHeld(held))
  {
    hide Selected, SpeedNext, SpeedReason, IsMomentaryBest;
    assert SelectsFrom(ps, cfg, SpeedHeld(best), newIp, None, route, SpeedHeld(held));
  }

  lemma DirectSelects(ps: Peers, cfg: Config, st: DrState, last: Reason, newIp: Prefix, pub: Option<Prefix>, route: SelectedRoute)
    requires newIp in ps && IsMomentaryBest(ps, newIp) && IsPublicRoute(ps, pub) && (pub.Some? ==> pub.value in ps)
    requires route == Selected(ps, cfg, DrNext(ps, cfg, st, newIp, pub).best, DrReason(ps, cfg, st, newIp, pub, last))
    ensures Selects(ps, cfg, DirectHeld(st, last), route, DirectHeld(DrNext(ps, cfg, st, newIp, pub), route.reason))
  {
    hide Selected, DrNext, DrReason, IsMomentaryBest, IsPublicRoute;
    assert SelectsFrom(ps, cfg, DirectHeld(st, last), newIp, pub, route, DirectHeld(DrNext(ps, cfg, st, newIp, pub), route.reason));
  }

  // The slot depends on the record of its own peer only.
  lemma SameSlot(k: Kernel, k0: Kernel, rs: map<Prefix, Record>, now: map<Prefix, Record>, ip: Prefix, found: Option<string>)
    requires k0.links == k.links && Lookup(k0.table, ip) == Lookup(k.table, ip)
    requires ip in rs && ip in now && now[ip] == rs[ip]
    ensures R.PeerSlot(k0, PeersOf(now), ip, found) == R.PeerSlot(k, PeersOf(rs), ip, found)
  {
    hide HasFlag, Lookup;
  }

  lemma AllCommitted(k: Kernel, k': Kernel, rs: map<Prefix, Record>, answers: Answers)
    requires k'.links == k.links && AreAnswers(k.table, rs.Keys, answers)
    requires forall q :: Lookup(k'.table, q) ==
                         if q in rs.Keys then R.PeerSlot(k, PeersOf(rs), q, answers[q]) else Lookup(k.table, q)
    ensures R.PeersCommitted(k, k', PeersOf(rs), answers)
  {
    hide HasFlag, Lookup, AddSlot, DelSlot;
    assert PeersOf(rs).Keys == rs.Keys;
  }
}
