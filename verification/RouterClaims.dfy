/**
 Whether a prefix can get two claimants (agent/router): which operations keep the claims
 of the groups apart, and the one that does not.
 */
module RouterClaims {
  import opened Net
  import opened SelectedRoutes
  import opened GatewayLists
  import opened Monitors
  import opened PeerFlags
  import opened Router

  // No prefix is claimed by two groups.
  ghost predicate Exclusive(gs: Groups) {
    forall g, h, p :: LiveAt(gs, g, p) && LiveAt(gs, h, p) ==> g == h
  }

  // The group has an enabled list for a prefix that another group claims.
  ghost predicate Contended(gs: Groups, gid: int, ip: Prefix) {
    && ClaimedElsewhere(gs, gid, ip)
    && gid in gs && ip in gs[gid].services && !gs[gid].services[ip].disabled
  }

  // An enabled list claims its prefix as soon as something is added to it.
  lemma AddedLive(g: Group, e: Entry)
    requires !e.pendingDel
    ensures Live(g.(entries := Added(g.entries, e))) <==> !g.disabled
  {
    var l := g.entries;
    if FindGateway(l, e.gateway).Some? {
      var i :| 0 <= i < |l| && l[i] == FindGateway(l, e.gateway).value;
      assert Unmark(l, e.gateway)[i] in Unmark(l, e.gateway);
      assert !Unmark(l, e.gateway)[i].pendingDel;
    } else {
      assert e.(pendingAdd := true, pendingDel := false) in Added(l, e);
    }
  }

  lemma ServiceAddedClaims(gs: Groups, path: NetworkPath, ip: Prefix)
    ensures var gs', gid := ServiceAdded(gs, path, ip), path.groupID;
            forall h, q :: LiveAt(gs', h, q) <==>
              if h != gid || q != ip then LiveAt(gs, h, q)
              else if gid in gs && ip in gs[gid].services then !gs[gid].services[ip].disabled
              else !ClaimedElsewhere(gs, gid, ip)
  {
    var g := GroupAt(GroupOf(gs, path.groupID).services, ip, ClaimedElsewhere(gs, path.groupID, ip), path.groupID);
    AddedLive(g, NewEntry(path));
  }

  /** Adding a service breaks exclusivity iff its group has an enabled list for a prefix that meanwhile another group
      claims: the list is not asked for a conflict again. */
  lemma ServiceAddedExclusive(gs: Groups, path: NetworkPath, ip: Prefix)
    requires Exclusive(gs)
    ensures Exclusive(ServiceAdded(gs, path, ip)) <==> !Contended(gs, path.groupID, ip)
  {
    hide ServiceAdded;
    var gs', gid := ServiceAdded(gs, path, ip), path.groupID;
    ServiceAddedClaims(gs, path, ip);
    if Contended(gs, gid, ip) {
      var h :| h != gid && LiveAt(gs, h, ip);
      assert LiveAt(gs', h, ip) && LiveAt(gs', gid, ip);
    }
  }

  // ---- Runs ----------------------------------------------------------------------------

  datatype Op =
    | ServiceAdd(path: NetworkPath, ip: Prefix)
    | ServiceDel(path: NetworkPath, ip: Prefix)
    | PeerAdd(path: NetworkPath, dest: Prefix)
    | PeerDel(path: NetworkPath, dest: Prefix)
    | Flush
    | Reroute(selected: int -> Option<SelectedRoute>)
    | Commit(answers: map<int, Answers>, best: int -> SelectedRoute)  // applyChanges
    | Resolve                                                        // resolveIpConflict

  function GroupRerouted(g: RouterGroup, sel: Option<SelectedRoute>): RouterGroup {
    g.(services := ReroutedAll(g.services, SelectedAddr(sel)), connID := SelectedID(sel))
  }

  // One step, as the contracts of Router and ServiceMonitor state it.
  ghost predicate Step(gs: Groups, op: Op, gs': Groups) {
    match op
    case ServiceAdd(path, ip) => gs' == ServiceAdded(gs, path, ip)
    case ServiceDel(path, ip) => gs' == ServiceDeleted(gs, path, ip)
    case PeerAdd(path, dest) => gs' == PeerAdded(gs, path, dest)
    case PeerDel(path, dest) => gs' == PeerDeleted(gs, path, dest)
    case Flush => gs' == AllFlushed(gs)
    case Reroute(selected) => gs' == map gid | gid in gs :: GroupRerouted(gs[gid], selected(gid))
    case Commit(answers, best) => gs' == Committed(gs, answers, best)
    case Resolve => IsPass(gs, gs')
  }

  ghost predicate IsPass(gs: Groups, gs': Groups) {
    exists t: seq<Visit> :: IsTrail(gs, t, gs') && AllDone(gs', {}, Treated(t))
  }

  // The operation does not add to an enabled list whose prefix another group claims.
  ghost predicate Harmless(gs: Groups, op: Op) {
    op.ServiceAdd? ==> !Contended(gs, op.path.groupID, op.ip)
  }

  lemma StepKeepsGroups(gs: Groups, op: Op, gs': Groups)
    requires GroupsOk(gs) && Step(gs, op, gs')
    ensures GroupsOk(gs')
  {
    hide WellFormed, Unapplied, HasFlag, Rerouted;
    match op
    case ServiceAdd(path, ip) =>
      EmptyWellFormed();
      var g := GroupAt(GroupOf(gs, path.groupID).services, ip, ClaimedElsewhere(gs, path.groupID, ip), path.groupID);
      AddedKeeps(g.entries, NewEntry(path));
    case ServiceDel(path, ip) =>
      if path.groupID in gs && ip in gs[path.groupID].services {
        MarkedKeeps(gs[path.groupID].services[ip].entries, path.gateway);
      }
    case Flush =>
      forall g, p | g in gs' && p in gs'[g].services ensures GroupOk(gs'[g].services[p]) {
        MarkedKeeps(gs[g].services[p].entries, 0);
      }
    case Reroute(selected) =>
      forall g, p | g in gs' && p in gs'[g].services ensures GroupOk(gs'[g].services[p]) {
        AppliedKeeps(gs[g].services[p], SelectedAddr(selected(g)), None);
      }
    case Commit(answers, best) =>
      CommittedApplied(gs, answers, best);
      NothingDisabled(gs, gs');
    case Resolve =>
      var t: seq<Visit> :| IsTrail(gs, t, gs') && AllDone(gs', {}, Treated(t));
      TrailResolves(gs, t, gs');
    case _ =>
  }

  lemma EmptyWellFormed()
    ensures WellFormed([]) && Unapplied([])
  {
  }

  // What is done to a list makes no claim when every entry that counts afterwards counted before.
  lemma NoNewClaim(g: Group, g': Group)
    requires g.disabled == g'.disabled && |g.entries| == |g'.entries|
    requires forall i :: 0 <= i < |g.entries| && (g'.entries[i].pendingAdd || !g'.entries[i].pendingDel) ==>
               g.entries[i].pendingAdd || !g.entries[i].pendingDel
    ensures Live(g') ==> Live(g)
  {
    if Live(g') {
      var i :| 0 <= i < |g'.entries| && (g'.entries[i].pendingAdd || !g'.entries[i].pendingDel);
      assert g.entries[i] in g.entries;
    }
  }

  /** Deleting, flushing, rerouting, committing and changing peers make no claims. */
  lemma StepClaims(gs: Groups, op: Op, gs': Groups)
    requires GroupsOk(gs) && Step(gs, op, gs') && !op.ServiceAdd? && !op.Resolve?
    ensures forall g, p :: LiveAt(gs', g, p) ==> LiveAt(gs, g, p)
  {
    hide HasFlag, WellFormed, Live, PeersApplied, AppliedAll;
    forall g, p | LiveAt(gs', g, p) ensures LiveAt(gs, g, p) {
      match op
      case ServiceDel(path, ip) =>
        NoNewClaim(gs[g].services[p], gs'[g].services[p]);
      case Flush =>
        NoNewClaim(gs[g].services[p], gs'[g].services[p]);
      case Reroute(_) =>
        NoNewClaim(gs[g].services[p], gs'[g].services[p]);
      case Commit(answers, best) =>
        CommittedApplied(gs, answers, best);
        assert GroupApplied(gs[g], gs'[g]);
      case _ =>
    }
  }

  lemma StepExclusive(gs: Groups, op: Op, gs': Groups)
    requires GroupsOk(gs) && Exclusive(gs) && Step(gs, op, gs') && Harmless(gs, op)
    ensures GroupsOk(gs') && Exclusive(gs')
  {
    StepKeepsGroups(gs, op, gs');
    hide LiveAt, GroupsOk;
    match op
    case ServiceAdd(path, ip) => ServiceAddedExclusive(gs, path, ip);
    case Resolve =>
      var t: seq<Visit> :| IsTrail(gs, t, gs') && AllDone(gs', {}, Treated(t));
      TrailResolves(gs, t, gs');
      forall g, h, p | LiveAt(gs', g, p) && LiveAt(gs', h, p) ensures g == h {
        if !LiveAt(gs, g, p) {
          assert !ClaimedElsewhere(gs', g, p);
        } else if !LiveAt(gs, h, p) {
          assert !ClaimedElsewhere(gs', h, p);
        }
      }
    case _ => StepClaims(gs, op, gs');
  }

  /** In every state of every run that never adds to an enabled list of a prefix another group claims, no prefix is
      claimed by two groups. */
  lemma {:induction false} RunExclusive(states: seq<Groups>, ops: seq<Op>, n: nat)
    requires |states| == |ops| + 1 && states[0] == map[] && n <= |ops|
    requires forall i :: 0 <= i < |ops| ==> Step(states[i], ops[i], states[i + 1]) && Harmless(states[i], ops[i])
    ensures GroupsOk(states[n]) && Exclusive(states[n])
  {
    if n > 0 {
      hide Step, Harmless;
      RunExclusive(states, ops, n - 1);
      StepExclusive(states[n - 1], ops[n - 1], states[n]);
    }
  }

  // ---- A run that ends with two claimants ------------------------------------------------

  lemma AddedOne(e: Entry)
    requires !e.pendingDel && !e.pendingAdd && !e.active
    ensures Added([], e) == [e.(pendingAdd := true)] && PhaseOf([e.(pendingAdd := true)]) == Set
    ensures SetUp([e.(pendingAdd := true)], None) == [e.(active := true)]
    ensures Marked([e.(active := true)], e.gateway) == [e.(active := true, pendingDel := true)]
  {
    var x := e.(pendingAdd := true);
    assert x in [x];
    assert Active([x]).None? && FirstKept([x]) == Some(x);
  }

  // A new peer without conflict is committed as a peer without flags.
  lemma PeerOne(ifname: string, dest: Prefix)
    ensures PeersApplied(AddedPeer(map[], ifname, dest, false)) == map[dest := Peer(ifname, PIF_NONE)]
  {
    hide HasFlag, WithFlag, WithoutFlag;
    var f := WithFlag(PIF_NONE, PIF_ADD_PENDING);
    forall g | IsFlag(g)
      ensures HasFlag(f, g) <==> g == PIF_ADD_PENDING
      ensures HasFlag(WithoutFlag(f, PIF_DEL_PENDING), g) <==> g == PIF_ADD_PENDING
    {
      FlagBits(PIF_NONE, PIF_ADD_PENDING, g);
      FlagBits(f, PIF_DEL_PENDING, g);
    }
  }

  // A pass over groups with nothing disabled changes nothing.
  lemma {:induction false} NothingToResolve(gs: Groups, ids: set<EntryId>) returns (t: seq<Visit>)
    requires forall e :: e in ids ==> IsEntry(gs, e) && !IsDisabled(gs, e)
    ensures IsTrail(gs, t, gs) && Treated(t) == ids
    decreases ids
  {
    if ids == {} {
      t := [];
    } else {
      var e :| e in ids;
      var u := NothingToResolve(gs, ids - {e});
      TrailNext(gs, u, gs, e, gs, 0);
      t := u + [Visit(e, gs, gs, 0)];
    }
  }

  // The first group of the run, with its one peer and its one service.
  function Single(g: int, peers: map<Prefix, Peer>, ip: Prefix, e: Entry, connID: int): Groups {
    map[g := RouterGroup(peers, map[ip := Group([e], false, g)], connID)]
  }

  // The group is set up: its peer and its service are added, committed, and no conflict is found.
  lemma SetUpRun(ip: Prefix, one: NetworkPath, dest: Prefix, best: SelectedRoute)
    returns (states: seq<Groups>, ops: seq<Op>)
    ensures |ops| == 4 && |states| == 5 && states[0] == map[]
    ensures forall i :: 0 <= i < 4 ==> Step(states[i], ops[i], states[i + 1]) && Harmless(states[i], ops[i])
    ensures states[4] == Single(one.groupID, map[dest := Peer(one.ifname, PIF_NONE)], ip, NewEntry(one).(active := true), best.id)
  {
    hide Step, Harmless, Single, PeerAdded, ServiceAdded;
    var s1 := PeerAdded(map[], one, dest);
    var s2 := ServiceAdded(s1, one, ip);
    FirstSteps(one, dest, ip);
    var commit, s := CommitSteps(ip, one, dest, best);
    states := [map[], s1, s2, s, s];
    ops := [PeerAdd(one, dest), ServiceAdd(one, ip), commit, Resolve];
  }

  lemma CommitSteps(ip: Prefix, one: NetworkPath, dest: Prefix, best: SelectedRoute) returns (commit: Op, s: Groups)
    ensures s == Single(one.groupID, map[dest := Peer(one.ifname, PIF_NONE)], ip, NewEntry(one).(active := true), best.id)
    ensures var s2 := ServiceAdded(PeerAdded(map[], one, dest), one, ip);
            Step(s2, commit, s) && Harmless(s2, commit) && Step(s, Resolve, s) && Harmless(s, Resolve)
  {
    hide ServiceAdded, PeerAdded, Committed, IsPass, Single, Contended, NewEntry;
    var g, e := one.groupID, NewEntry(one);
    s := Single(g, map[dest := Peer(one.ifname, PIF_NONE)], ip, e.(active := true), best.id);
    commit := Commit(map[g := map[ip := None]], (_: int) => best);
    OneCommitted(one, dest, ip, best, commit.answers, commit.best);
    PassOverNothing(g, dest, ip, one.ifname, e.(active := true), best.id);
  }

  lemma FirstSteps(one: NetworkPath, dest: Prefix, ip: Prefix)
    ensures var s1 := PeerAdded(map[], one, dest);
            && Step(map[], PeerAdd(one, dest), s1) && Step(s1, ServiceAdd(one, ip), ServiceAdded(s1, one, ip))
            && Harmless(map[], PeerAdd(one, dest)) && Harmless(s1, ServiceAdd(one, ip))
  {
  }

  lemma TwoAdded(one: NetworkPath, dest: Prefix, ip: Prefix)
    ensures var g := one.groupID;
            ServiceAdded(PeerAdded(map[], one, dest), one, ip) ==
            Single(g, AddedPeer(map[], one.ifname, dest, false), ip, NewEntry(one).(pendingAdd := true), 0)
  {
    hide AddedPeer;
    var g, e := one.groupID, NewEntry(one);
    assert !ClaimedElsewhere(map[], g, dest);
    var peers := AddedPeer(map[], one.ifname, dest, false);
    var s1 := PeerAdded(map[], one, dest);
    assert s1 == map[g := RouterGroup(peers, map[], 0)];
    assert !ClaimedElsewhere(s1, g, ip);
    AddedOne(e);
    assert AddedTo(map[], one, ip, false) == map[ip := Group([e.(pendingAdd := true)], false, g)];
  }

  lemma OneCommitted(one: NetworkPath, dest: Prefix, ip: Prefix, best: SelectedRoute,
                     answers: map<int, Answers>, bests: int -> SelectedRoute)
    requires answers == map[one.groupID := map[ip := None]] && bests(one.groupID) == best
    ensures Committed(ServiceAdded(PeerAdded(map[], one, dest), one, ip), answers, bests) ==
            Single(one.groupID, map[dest := Peer(one.ifname, PIF_NONE)], ip, NewEntry(one).(active := true), best.id)
  {
    hide AddedPeer, PeersApplied;
    var g, e := one.groupID, NewEntry(one);
    TwoAdded(one, dest, ip);
    hide ServiceAdded, PeerAdded, AppliedAll;
    PeerOne(one.ifname, dest);
    var s2 := ServiceAdded(PeerAdded(map[], one, dest), one, ip);
    CommitOne(s2[g], ip, e, best);
    var s3 := Committed(s2, answers, bests);
    assert s2[g].peers == AddedPeer(map[], one.ifname, dest, false) && dest in PeersApplied(s2[g].peers);
    assert s3.Keys == {g} && s3[g] == GroupCommitted(s2[g], answers[g], best);
  }

  lemma PassOverNothing(g: int, dest: Prefix, ip: Prefix, ifname: string, e: Entry, connID: int)
    ensures var s := Single(g, map[dest := Peer(ifname, PIF_NONE)], ip, e, connID); IsPass(s, s)
  {
    var s := Single(g, map[dest := Peer(ifname, PIF_NONE)], ip, e, connID);
    FlagBits(PIF_NONE, PIF_DISABLED, PIF_DISABLED);
    var t := NothingToResolve(s, {PeerAt(g, dest), ServiceAt(g, ip)});
    assert AllDone(s, {}, Treated(t));
  }

  lemma CommitOne(g: RouterGroup, ip: Prefix, e: Entry, best: SelectedRoute)
    requires !e.pendingDel && !e.pendingAdd && !e.active && ip in g.services
    requires g.services == map[ip := Group([e.(pendingAdd := true)], false, g.services[ip].groupID)]
    ensures AppliedAll(g.services, map[ip := None], best.ip) ==
            map[ip := Group([e.(active := true)], false, g.services[ip].groupID)]
  {
    AddedOne(e);
  }

  /** Such an addition does come about: a group's service is installed and marked for deletion, another group takes over
      the prefix, and before the next commit the first one adds it again. */
  lemma Collision(ip: Prefix, one: NetworkPath, two: NetworkPath, dest: Prefix, best: SelectedRoute)
    returns (states: seq<Groups>, ops: seq<Op>)
    requires one.groupID != two.groupID
    ensures |states| == |ops| + 1 && states[0] == map[]
    ensures forall i :: 0 <= i < |ops| ==> Step(states[i], ops[i], states[i + 1])
    ensures forall i :: 0 <= i < |ops| - 1 ==> Harmless(states[i], ops[i])
    ensures !Exclusive(states[|ops|])
  {
    hide Step, Harmless;
    var g, e := one.groupID, NewEntry(one);
    states, ops := SetUpRun(ip, one, dest, best);
    var s := states[4];
    var s5 := ServiceDeleted(s, one, ip);
    AddedOne(e);
    assert s5[g].services[ip] == Group([e.(active := true, pendingDel := true)], false, g);
    assert s5.Keys == {g} && s5[g].services.Keys == {ip};
    assert !LiveAt(s5, g, ip);
    var s6 := ServiceAdded(s5, two, ip);
    var s7 := ServiceAdded(s6, one, ip);
    assert !ClaimedElsewhere(s5, two.groupID, ip);
    assert s6[g] == s5[g];
    hide ServiceAdded, LiveAt;
    ServiceAddedClaims(s5, two, ip);
    ServiceAddedClaims(s6, one, ip);
    assert LiveAt(s7, g, ip) && LiveAt(s7, two.groupID, ip);
    LastSteps(s, s5, s6, s7, one, two, ip);
    states := states + [s5, s6, s7];
    ops := ops + [ServiceDel(one, ip), ServiceAdd(two, ip), ServiceAdd(one, ip)];
  }

  lemma LastSteps(s: Groups, s5: Groups, s6: Groups, s7: Groups, one: NetworkPath, two: NetworkPath, ip: Prefix)
    requires s5 == ServiceDeleted(s, one, ip) && s6 == ServiceAdded(s5, two, ip) && s7 == ServiceAdded(s6, one, ip)
    requires !ClaimedElsewhere(s5, two.groupID, ip)
    ensures Step(s, ServiceDel(one, ip), s5) && Harmless(s, ServiceDel(one, ip))
    ensures Step(s5, ServiceAdd(two, ip), s6) && Harmless(s5, ServiceAdd(two, ip))
    ensures Step(s6, ServiceAdd(one, ip), s7)
  {
  }
}
