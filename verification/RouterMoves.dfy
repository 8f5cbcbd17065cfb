/**
 What the operations of the router change, told entry by entry (agent/router/services.go, peers.go,
 actions.go).
 */
module RouterMoves {
  import opened Net
  import opened GatewayLists
  import opened Monitors
  import opened PeerFlags
  import opened GatewayMoves
  import opened Router

  // Some service of another group claims the prefix.
  ghost predicate Taken(gs: Groups, gid: int, ip: Prefix) {
    exists h :: h in gs && h != gid && ip in gs[h].services && Live(gs[h].services[ip])
  }

  lemma TakenExactly(gs: Groups, gid: int, ip: Prefix)
    ensures ClaimedElsewhere(gs, gid, ip) <==> Taken(gs, gid, ip)
  {
    if ClaimedElsewhere(gs, gid, ip) {
      var h :| h != gid && LiveAt(gs, h, ip);
    }
    if h :| h in gs && h != gid && ip in gs[h].services && Live(gs[h].services[ip]) {
      assert LiveAt(gs, h, ip);
    }
  }

  // Only this group may differ, which was empty if it is new.
  ghost predicate OnlyGroup(gs: Groups, gs': Groups, gid: int) {
    gs'.Keys == gs.Keys + {gid} && forall h :: h in gs && h != gid ==> gs'[h] == gs[h]
  }

  /** Only the services of the group change, by one addition, which is in conflict iff another group claims the prefix. */
  lemma ServiceAddition(gs: Groups, path: NetworkPath, ip: Prefix)
    ensures var gs', was := ServiceAdded(gs, path, ip), if path.groupID in gs then gs[path.groupID].services else map[];
            && OnlyGroup(gs, gs', path.groupID)
            && gs'[path.groupID].services == AddedTo(was, path, ip, Taken(gs, path.groupID, ip))
            && gs'[path.groupID].peers == (if path.groupID in gs then gs[path.groupID].peers else map[])
            && gs'[path.groupID].connID == (if path.groupID in gs then gs[path.groupID].connID else 0)
  {
    TakenExactly(gs, path.groupID, ip);
    hide ClaimedElsewhere, Taken, AddedTo;
  }

  lemma ServiceDeletion(gs: Groups, path: NetworkPath, ip: Prefix)
    ensures var gs' := ServiceDeleted(gs, path, ip);
            && gs'.Keys == gs.Keys && (forall h :: h in gs && h != path.groupID ==> gs'[h] == gs[h])
            && (path.groupID in gs ==>
                  && gs'[path.groupID] == gs[path.groupID].(services := gs'[path.groupID].services)
                  && gs'[path.groupID].services == MarkedIn(gs[path.groupID].services, path, ip))
  {
  }

  /** Only one peer of the group changes: it is on the interface of the path, to be added and not to be deleted, and
      disabled if it was or if another group claims its address. */
  lemma PeerAddition(gs: Groups, path: NetworkPath, dest: Prefix)
    ensures var gs', gid := PeerAdded(gs, path, dest), path.groupID;
            var was := if gid in gs then gs[gid].peers else map[];
            && OnlyGroup(gs, gs', gid)
            && gs'[gid].services == (if gid in gs then gs[gid].services else map[])
            && gs'[gid].connID == (if gid in gs then gs[gid].connID else 0)
            && gs'[gid].peers.Keys == was.Keys + {dest} && (forall p :: p in was && p != dest ==> gs'[gid].peers[p] == was[p])
            && var peer := gs'[gid].peers[dest];
               && peer.ifname == path.ifname && peer.Has(PIF_ADD_PENDING) && !peer.Has(PIF_DEL_PENDING)
               && (peer.Has(PIF_DISABLED) <==> Taken(gs, gid, dest) || (dest in was && was[dest].Has(PIF_DISABLED)))
  {
    TakenExactly(gs, path.groupID, dest);
    var was := GroupOf(gs, path.groupID).peers;
    var flags := if dest in was then was[dest].flags else PIF_NONE;
    FlagBits(PIF_NONE, PIF_DISABLED, PIF_DISABLED);
    PendingFlags(flags, ClaimedElsewhere(gs, path.groupID, dest), PIF_ADD_PENDING);
    PendingFlags(flags, ClaimedElsewhere(gs, path.groupID, dest), PIF_DEL_PENDING);
    PendingFlags(flags, ClaimedElsewhere(gs, path.groupID, dest), PIF_DISABLED);
    hide ClaimedElsewhere, Taken, AddedFlags, HasFlag;
  }

  // The peer is marked for deletion, and is as it was otherwise.
  predicate IsMarked(was: Peer, now: Peer) {
    && now.ifname == was.ifname && now.Has(PIF_DEL_PENDING)
    && now.Has(PIF_ADD_PENDING) == was.Has(PIF_ADD_PENDING) && now.Has(PIF_DISABLED) == was.Has(PIF_DISABLED)
  }

  lemma MarkedIs(peer: Peer)
    ensures IsMarked(peer, MarkedPeer(peer))
  {
    PendingFlags(peer.flags, false, PIF_ADD_PENDING);
    PendingFlags(peer.flags, false, PIF_DEL_PENDING);
    PendingFlags(peer.flags, false, PIF_DISABLED);
    hide DeletedFlags, HasFlag;
  }

  /** Only the peer changes, and only if it is known. */
  lemma PeerDeletion(gs: Groups, path: NetworkPath, dest: Prefix)
    ensures var gs', gid := PeerDeleted(gs, path, dest), path.groupID;
            if gid in gs && dest in gs[gid].peers then
              && gs'.Keys == gs.Keys && (forall h :: h in gs && h != gid ==> gs'[h] == gs[h])
              && gs'[gid] == gs[gid].(peers := gs'[gid].peers)
              && gs'[gid].peers.Keys == gs[gid].peers.Keys
              && (forall p :: p in gs[gid].peers && p != dest ==> gs'[gid].peers[p] == gs[gid].peers[p])
              && IsMarked(gs[gid].peers[dest], gs'[gid].peers[dest])
            else gs' == gs
  {
    if path.groupID in gs && dest in gs[path.groupID].peers {
      MarkedIs(gs[path.groupID].peers[dest]);
    }
    hide IsMarked, MarkedPeer;
  }

  /** A flush marks every peer and every entry, and drops exactly the disabled services. */
  lemma FlushExact(gs: Groups, g: int)
    requires g in gs
    ensures var gs' := AllFlushed(gs);
            && gs'.Keys == gs.Keys && gs'[g].connID == gs[g].connID
            && gs'[g].peers.Keys == gs[g].peers.Keys
            && (forall p :: p in gs[g].peers ==> IsMarked(gs[g].peers[p], gs'[g].peers[p]))
            && (forall p :: p in gs'[g].services <==> p in gs[g].services && !gs[g].services[p].disabled)
            && (forall p :: p in gs'[g].services ==>
                  var l, r := gs[g].services[p].entries, gs'[g].services[p].entries;
                  gs'[g].services[p] == gs[g].services[p].(entries := r) && |r| == |l|
                  && forall i :: 0 <= i < |l| ==> r[i] == l[i].(pendingDel := true))
  {
    forall p | p in gs[g].peers ensures IsMarked(gs[g].peers[p], AllFlushed(gs)[g].peers[p]) {
      MarkedIs(gs[g].peers[p]);
    }
    hide IsMarked, MarkedPeer;
  }

  // Exactly this entry has been enabled.
  ghost predicate OnlyEnabledAt(gs: Groups, gs': Groups, e: EntryId)
    requires IsEntry(gs, e)
  {
    && gs'.Keys == gs.Keys && (forall h :: h in gs && h != e.gid ==> gs'[h] == gs[h])
    && gs'[e.gid].connID == gs[e.gid].connID
    && var g, g' := gs[e.gid], gs'[e.gid];
       match e
       case PeerAt(_, p) =>
         && g'.services == g.services && g'.peers.Keys == g.peers.Keys
         && (forall q :: q in g.peers && q != p ==> g'.peers[q] == g.peers[q])
         && g'.peers[p].ifname == g.peers[p].ifname && !g'.peers[p].Has(PIF_DISABLED)
         && g'.peers[p].Has(PIF_ADD_PENDING) == g.peers[p].Has(PIF_ADD_PENDING)
         && g'.peers[p].Has(PIF_DEL_PENDING) == g.peers[p].Has(PIF_DEL_PENDING)
       case ServiceAt(_, p) =>
         g'.peers == g.peers && g'.services == g.services[p := g.services[p].(disabled := false)]
  }

  /** A visit enables its entry iff that is disabled and no other group claims the prefix, and changes nothing else. */
  lemma VisitExact(gs: Groups, gs': Groups, e: EntryId, n: nat)
    requires IsEntry(gs, e) && EntryResolved(gs, gs', e, n)
    ensures IsDisabled(gs, e) && !Taken(gs, e.gid, e.ip) ==> OnlyEnabledAt(gs, gs', e) && n == 1
    ensures !IsDisabled(gs, e) || Taken(gs, e.gid, e.ip) ==> gs' == gs && n == 0
  {
    TakenExactly(gs, e.gid, e.ip);
    if e.PeerAt? {
      FlagBits(gs[e.gid].peers[e.ip].flags, PIF_DISABLED, PIF_DISABLED);
      FlagBits(gs[e.gid].peers[e.ip].flags, PIF_DISABLED, PIF_ADD_PENDING);
      FlagBits(gs[e.gid].peers[e.ip].flags, PIF_DISABLED, PIF_DEL_PENDING);
    }
    hide ClaimedElsewhere, Taken, WithoutFlag, HasFlag;
  }
}
