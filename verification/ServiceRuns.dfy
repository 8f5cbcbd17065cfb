/**
 Whole runs of one service monitor: between the operations of the router, other
 owners may change the routes of destinations this monitor does not manage.
 Throughout, cache and kernel agree, and the route-change reports form a chain.
 A run may find routes that an earlier one has left; see Awaiting.
 */
module ServiceRuns {
  import opened Net
  import opened SelectedRoutes
  import opened GatewayLists
  import opened Monitors
  import opened GatewayMoves

  datatype State = State(groups: Monitor, kernel: Kernel, connID: int, reports: seq<Report>)

  datatype Op =
    | Add(path: NetworkPath, ip: Prefix, disabled: bool)
    | Del(path: NetworkPath, ip: Prefix)
    | Flush
    | Apply(best: SelectedRoute)
    | Reroute(sel: Option<SelectedRoute>)
    | Resolve(isIPconflict: Prefix -> bool)
    | Close
    | Foreign(ip: Prefix, slot: Slot)  // somebody else writes a route

  // One step, as the contracts of ServiceMonitor state it. `gid` is the connection group.
  ghost predicate Step(s: State, op: Op, s': State, gid: int) {
    match op
    case Add(path, ip, disabled) => s' == s.(groups := AddedTo(s.groups, path, ip, disabled))
    case Del(path, ip) => s' == s.(groups := MarkedIn(s.groups, path, ip))
    case Flush => s' == s.(groups := Flushed(s.groups))
    case Apply(best) => exists answers :: ApplyStep(s, best, answers, s', gid)
    case Reroute(sel) => exists answers :: RerouteStep(s, sel, answers, s', gid)
    case Resolve(isIPconflict) => s' == s.(groups := Resolved(s.groups, isIPconflict))
    case Close =>
      && s' == s.(groups := map[], kernel := s'.kernel) && s'.kernel.links == s.kernel.links
      && forall q :: Lookup(s'.kernel.table, q) == SlotClosed(s.kernel, s.groups, q)
    case Foreign(ip, slot) => s' == s.(kernel := Write(s.kernel, ip, slot))
  }

  // `answers` are those of the route searches on the way.
  ghost predicate ApplyStep(s: State, best: SelectedRoute, answers: Answers, s': State, gid: int) {
    && KernelApplied(s.kernel, s'.kernel, s.groups, best.ip, answers)
    && s' == State(AppliedAll(s.groups, answers, best.ip), s'.kernel, best.id,
                   s.reports + Reported(s.connID, best.id, gid, best.reason.Text()))
  }

  ghost predicate RerouteStep(s: State, sel: Option<SelectedRoute>, answers: Answers, s': State, gid: int) {
    && KernelRerouted(s.kernel, s'.kernel, s.groups, SelectedAddr(sel), answers)
    && s' == State(ReroutedAll(s.groups, SelectedAddr(sel)), s'.kernel, SelectedID(sel),
                   s.reports + Reported(s.connID, SelectedID(sel), gid, SelectedReason(sel)))
  }

  // ---- Agreement of cache and kernel --------------------------------------------------

  ghost predicate LinksExist(g: Group, links: set<string>) {
    forall e :: e in g.entries ==> e.ifname in links
  }

  // A first commit of the whole list can adopt the route.
  ghost predicate Adoptable(l: seq<Entry>, s: Slot) {
    s.Some? && exists e :: e in l && e.ifname == s.value.ifname
  }

  ghost predicate Uncommitted(g: Group) {
    g.entries != [] && Unapplied(g.entries)
  }

  // Enabled, not committed yet, and the destination has a route already, over whatever interface.
  ghost predicate Awaiting(g: Group, s: Slot) {
    !g.disabled && Uncommitted(g) && s.Some?
  }

  ghost predicate GroupAgrees(g: Group, s: Slot, links: set<string>) {
    GroupOk(g) && LinksExist(g, links) && (!g.disabled ==> Agrees(g.entries, s))
  }

  ghost predicate GroupHolds(g: Group, s: Slot, links: set<string>) {
    GroupOk(g) && LinksExist(g, links) && (!g.disabled ==> Agrees(g.entries, s) || Awaiting(g, s))
  }

  ghost predicate Holds(s: State) {
    forall p :: p in s.groups ==> GroupHolds(s.groups[p], Lookup(s.kernel.table, p), s.kernel.links)
  }

  ghost predicate AllAgree(s: State) {
    forall p :: p in s.groups ==> GroupAgrees(s.groups[p], Lookup(s.kernel.table, p), s.kernel.links)
  }

  // The commit of a list that awaits its route takes it over: nothing was deleted from the list before and some
  // entry is on the interface of the route, or the selected gateway is on that interface.
  ghost predicate Adopts(l: seq<Entry>, s: Slot, best: Option<Addr>) {
    || (PhaseOf(l) == Set && Adoptable(l, s))
    || (PhaseOf(l) != Set && exists x :: IsTarget(l, best, x) && s.Some? && x.ifname == s.value.ifname)
  }

  ghost predicate KeepsWaiting(l: seq<Entry>, s: Slot, gw: Option<Addr>) {
    forall x :: IsChosen(l, gw, x) ==> s.Some? && x.ifname == s.value.ifname
  }

  // What is assumed of the surroundings: managed destinations are alone; interfaces exist; nobody else writes the
  // route of an enabled destination once its list is committed. What was there before the first commit, whoever
  // wrote it, must be what the commit adopts, and a reroute until then must not choose another interface.
  ghost predicate Undisturbed(s: State, op: Op) {
    && Alone(s.kernel.table.Keys, s.groups.Keys)
    && match op
       case Add(path, _, _) => path.ifname in s.kernel.links
       case Apply(best) =>
         forall p :: p in s.groups && Awaiting(s.groups[p], Lookup(s.kernel.table, p)) ==>
           Adopts(s.groups[p].entries, Lookup(s.kernel.table, p), best.ip)
       case Reroute(sel) =>
         forall p :: p in s.groups && Awaiting(s.groups[p], Lookup(s.kernel.table, p)) ==>
           KeepsWaiting(s.groups[p].entries, Lookup(s.kernel.table, p), SelectedAddr(sel))
       case Foreign(ip, _) => ip in s.groups ==> s.groups[ip].disabled || Uncommitted(s.groups[ip])
       case _ => true
  }

  // The operation brings no enabled destination together with a route that is there already.
  ghost predicate Fresh(s: State, op: Op) {
    match op
    case Add(_, ip, disabled) => ip !in s.groups && !disabled ==> Lookup(s.kernel.table, ip).None?
    case Resolve(isIPconflict) =>
      forall p :: p in s.groups && Resolvable(s.groups[p], p, isIPconflict) ==> Lookup(s.kernel.table, p).None?
    case Foreign(ip, slot) => ip in s.groups && !s.groups[ip].disabled ==> slot.None?
    case _ => true
  }

  // Entry by entry the same gateway, interface and activity.
  ghost predicate SameRoutes(l: seq<Entry>, r: seq<Entry>) {
    && |l| == |r|
    && forall i :: 0 <= i < |l| ==> l[i].gateway == r[i].gateway && l[i].ifname == r[i].ifname && l[i].active == r[i].active
  }

  lemma SameRoutesAgree(l: seq<Entry>, r: seq<Entry>, s: Slot)
    requires SameRoutes(l, r) && WellFormed(l)
    ensures Agrees(l, s) <==> Agrees(r, s)
  {
    if Active(l).Some? {
      var i :| 0 <= i < |l| && l[i] == Active(l).value;
      Unique(r, r[i]);
    } else {
      forall x | x in r ensures !x.active {
        var i :| 0 <= i < |r| && r[i] == x;
        assert l[i] in l;
      }
    }
  }

  lemma AddedAgrees(g: Group, e: Entry, s: Slot, links: set<string>)
    requires WellFormed(g.entries) && LinksExist(g, links) && (g.disabled ==> Unapplied(g.entries))
    requires !g.disabled ==> Agrees(g.entries, s)
    requires !e.active && e.ifname in links
    ensures GroupAgrees(g.(entries := Added(g.entries, e)), s, links)
  {
    var l := g.entries;
    var r := Added(l, e);
    AddedKeeps(l, e);
    forall x | x in r ensures x.ifname in links {
      var i :| 0 <= i < |r| && r[i] == x;
      assert i < |l| ==> l[i] in l;
    }
    if FindGateway(l, e.gateway).Some? {
      SameRoutesAgree(l, r, s);
    } else if Active(l).Some? {
      assert Active(l).value in r;
      Unique(r, Active(l).value);
    }
  }

  lemma MarkedAgrees(g: Group, l': seq<Entry>, s: Slot, links: set<string>)
    requires GroupAgrees(g, s, links) && SameRoutes(g.entries, l')
    requires g.disabled ==> l' != [] && Unapplied(l')
    ensures GroupAgrees(g.(entries := l'), s, links)
  {
    SameRoutesAgree(g.entries, l', s);
    forall x | x in l' ensures x.ifname in links {
      var i :| 0 <= i < |l'| && l'[i] == x;
      assert g.entries[i] in g.entries;
    }
  }

  lemma MovedAgrees(l: seq<Entry>, l': seq<Entry>, s: Slot, links: set<string>, next: Option<Entry>)
    requires WellFormed(l) && WellFormed(l') && Agrees(l, s)
    requires forall e :: e in l ==> e.ifname in links
    requires next.Some? ==> next.value in l
    requires forall e :: e in l' ==> exists x :: x in l && x.gateway == e.gateway && x.ifname == e.ifname
    requires next.Some? ==> exists e :: e in l' && e.gateway == next.value.gateway
    ensures var r := Activated(l', GatewayOf(next));
            && Agrees(r, MovedSlot(s, links, s.Some?, Active(l), next))
            && (forall e :: e in r ==> e.ifname in links)
  {
    var r := Activated(l', GatewayOf(next));
    forall e | e in r ensures e.ifname in links {
      var i :| 0 <= i < |r| && r[i] == e;
      assert l'[i] in l';
    }
    if next.Some? {
      var e :| e in l' && e.gateway == next.value.gateway;
      Unique(l, next.value);
      ActivatedActive(l', Some(e));
    } else {
      ActivatedActive(l', None);
    }
    if Active(l).Some? {
      Unique(l, Active(l).value);
    }
    MoveExact(l, r, s, links, s.Some?, next);
  }

  lemma AppliedAgrees(g: Group, s: Slot, links: set<string>, best: Option<Addr>)
    requires GroupAgrees(g, s, links)
    ensures var r, s' := Applied(g, best, Found(s)), AppliedSlot(s, links, g, best, Found(s));
            if r.Some? then GroupAgrees(r.value, s', links) else s'.None?
  {
    var l := g.entries;
    AppliedKeeps(g, best, Found(s));
    if !g.disabled {
      match PhaseOf(l)
      case Idle =>
      case Set =>
        SetUpAgrees(l, s, links);
      case Clear =>
        ClearExact(l, s, links);
      case Merge =>
        KeptMembers(l);
        var k := Settled(Kept(l));
        forall e | e in k ensures exists x :: x in l && x.gateway == e.gateway && x.ifname == e.ifname {
          var i :| 0 <= i < |k| && k[i] == e;
          assert Kept(l)[i] in l;
        }
        var t := Target(l, best);
        if t.Some? {
          var i :| 0 <= i < |Kept(l)| && Kept(l)[i] == t.value;
          assert k[i] in k;
        }
        MovedAgrees(l, k, s, links, t);
    }
  }

  lemma SetUpAgrees(l: seq<Entry>, s: Slot, links: set<string>)
    requires WellFormed(l) && l != [] && PhaseOf(l) == Set && Agrees(l, s)
    requires forall e :: e in l ==> e.ifname in links
    ensures Agrees(SetUp(l, Found(s)), SetUpSlot(s, links, l, Found(s)))
    ensures forall e :: e in SetUp(l, Found(s)) ==> e.ifname in links
  {
    SetUpExact(l, s, links);
    assert l[0] in l;
    var r := SetUp(l, Found(s));
    forall e | e in r ensures e.ifname in links {
      var i :| 0 <= i < |r| && r[i] == e;
      assert l[i] in l;
    }
  }

  lemma ReroutedAgrees(g: Group, s: Slot, links: set<string>, gw: Option<Addr>)
    requires GroupAgrees(g, s, links) && !g.disabled
    ensures GroupAgrees(ReroutedGroup(g, gw), MovedSlot(s, links, s.Some?, Active(g.entries), Chosen(g.entries, gw)), links)
  {
    AppliedKeeps(g, gw, None);
    MovedAgrees(g.entries, g.entries, s, links, Chosen(g.entries, gw));
  }

  // ---- Lists that await a route -----------------------------------------------------

  lemma UnappliedInactive(l: seq<Entry>)
    requires Unapplied(l)
    ensures Active(l).None?
  {
  }

  lemma WaitingDisagrees(g: Group, s: Slot)
    requires Awaiting(g, s)
    ensures !Agrees(g.entries, s)
  {
    UnappliedInactive(g.entries);
  }

  lemma ReroutedLinks(g: Group, links: set<string>, gw: Option<Addr>)
    requires LinksExist(g, links)
    ensures LinksExist(ReroutedGroup(g, gw), links)
  {
    var r := ReroutedGroup(g, gw).entries;
    forall e | e in r ensures e.ifname in links {
      var i :| 0 <= i < |r| && r[i] == e;
      assert g.entries[i] in g.entries;
    }
  }

  lemma AppliedLinks(g: Group, links: set<string>, best: Option<Addr>, found: Option<string>)
    requires LinksExist(g, links) && Applied(g, best, found).Some?
    ensures LinksExist(Applied(g, best, found).value, links)
  {
    var l, r := g.entries, Applied(g, best, found).value.entries;
    KeptMembers(l);
    forall e | e in r ensures e.ifname in links {
      var i :| 0 <= i < |r| && r[i] == e;
      if !g.disabled && PhaseOf(l) == Merge {
        assert Kept(l)[i] in l;
      } else {
        assert l[i] in l;
      }
    }
  }

  /** The first commit of a list whose destination has a route of an earlier run makes cache and kernel agree iff it
      adopts the route. */
  lemma AdoptedExactly(g: Group, s: Slot, links: set<string>, best: Option<Addr>)
    requires GroupOk(g) && Awaiting(g, s)
    ensures var r, s' := Applied(g, best, Found(s)), AppliedSlot(s, links, g, best, Found(s));
            r.Some? && (Agrees(r.value.entries, s') <==> Adopts(g.entries, s, best))
  {
    var l := g.entries;
    UnappliedInactive(l);
    assert l[0] in l;
    if PhaseOf(l) == Set {
      SetUpExact(l, s, links);
    } else {
      assert PhaseOf(l) == Merge;
      TargetExactly(l, best);
      MergeLeads(l, best);
    }
  }

  /** Rerouting before that commit does so iff the selected gateway is on the interface of the route; with no such
      gateway the list goes on waiting. */
  lemma WaitingRerouted(g: Group, s: Slot, links: set<string>, gw: Option<Addr>)
    requires GroupOk(g) && Awaiting(g, s)
    ensures var r, s' := ReroutedGroup(g, gw), ReroutedSlot(s, links, g, gw, Found(s));
            && s' == s && GroupOk(r)
            && (Agrees(r.entries, s) || Awaiting(r, s) <==> KeepsWaiting(g.entries, s, gw))
  {
    var l := g.entries;
    UnappliedInactive(l);
    AppliedKeeps(g, gw, None);
    TargetExactly(l, gw);
    RerouteLeads(l, gw);
    if Chosen(l, gw).None? {
      forall i | 0 <= i < |l| ensures !l[i].active { assert l[i] in l; }
      assert Activated(l, None) == l;
    } else {
      assert IsChosen(l, gw, Chosen(l, gw).value);
      assert Active(Rerouted(l, gw)).Some?;
    }
  }

  lemma WaitingMarked(g: Group, l': seq<Entry>, s: Slot)
    requires Awaiting(g, s) && SameRoutes(g.entries, l') && Unapplied(l')
    ensures Awaiting(g.(entries := l'), s)
  {
  }

  lemma AddedLinks(g: Group, e: Entry, links: set<string>)
    requires LinksExist(g, links) && e.ifname in links
    ensures LinksExist(g.(entries := Added(g.entries, e)), links)
  {
    var l, r := g.entries, Added(g.entries, e);
    forall x | x in r ensures x.ifname in links {
      var i :| 0 <= i < |r| && r[i] == x;
      assert i < |l| ==> l[i] in l;
    }
  }

  // ---- Steps ----------------------------------------------------------------------------

  /** Every step keeps the agreement, and a destination that leaves the map takes its route along. A commit ends the
      waiting, and without an old route in the way none begins. */
  lemma StepAgrees(s: State, op: Op, s': State, gid: int)
    requires Holds(s) && Step(s, op, s', gid) && Undisturbed(s, op)
    ensures Holds(s')
    ensures op.Apply? || (Fresh(s, op) && AllAgree(s)) ==> AllAgree(s')
    ensures forall p :: p in s.groups && !s.groups[p].disabled && p !in s'.groups ==>
              (Lookup(s'.kernel.table, p).Some? <==> op.Close? && Awaiting(s.groups[p], Lookup(s.kernel.table, p)))
  {
    hide Step, Undisturbed, Fresh, GroupHolds, GroupAgrees;
    forall p | p in s'.groups
      ensures GroupHolds(s'.groups[p], Lookup(s'.kernel.table, p), s'.kernel.links)
      ensures op.Apply? || (Fresh(s, op) && AllAgree(s)) ==>
                GroupAgrees(s'.groups[p], Lookup(s'.kernel.table, p), s'.kernel.links)
    {
      StepAgreesAt(s, op, s', gid, p);
    }
    forall p | p in s.groups && !s.groups[p].disabled && p !in s'.groups
      ensures (Lookup(s'.kernel.table, p).Some? <==> op.Close? && Awaiting(s.groups[p], Lookup(s.kernel.table, p)))
    {
      StepLeaves(s, op, s', gid, p);
    }
  }

  lemma StepLeaves(s: State, op: Op, s': State, gid: int, p: Prefix)
    requires Holds(s) && Step(s, op, s', gid) && Undisturbed(s, op)
    requires p in s.groups && !s.groups[p].disabled && p !in s'.groups
    ensures (Lookup(s'.kernel.table, p).Some? <==> op.Close? && Awaiting(s.groups[p], Lookup(s.kernel.table, p)))
  {
    var g, slot, links := s.groups[p], Lookup(s.kernel.table, p), s.kernel.links;
    match op
    case Apply(best) =>
      CommittedAt(s, best, s', gid, p);
      if Awaiting(g, slot) {
        AdoptedExactly(g, slot, links, best.ip);
      } else {
        AppliedAgrees(g, slot, links, best.ip);
      }
    case Close =>
      if Awaiting(g, slot) {
        UnappliedInactive(g.entries);
      } else {
        ClearExact(g.entries, slot, links);
      }
    case _ =>
  }

  lemma StepAgreesAt(s: State, op: Op, s': State, gid: int, p: Prefix)
    requires Holds(s) && Step(s, op, s', gid) && Undisturbed(s, op) && p in s'.groups
    ensures GroupHolds(s'.groups[p], Lookup(s'.kernel.table, p), s'.kernel.links)
    ensures op.Apply? || (Fresh(s, op) && AllAgree(s)) ==>
              GroupAgrees(s'.groups[p], Lookup(s'.kernel.table, p), s'.kernel.links)
  {
    var slot, links := Lookup(s.kernel.table, p), s.kernel.links;
    match op
    case Add(path, ip, disabled) =>
      if p == ip {
        AddAgreesAt(s, path, ip, disabled);
      }
    case Del(path, ip) =>
      if p == ip {
        var g := s.groups[p];
        MarkedKeeps(g.entries, path.gateway);
        MarkAgreesAt(g, Marked(g.entries, path.gateway), slot, links);
      }
    case Flush =>
      MarkedKeeps(s.groups[p].entries, 0);
      MarkAgreesAt(s.groups[p], AllMarked(s.groups[p].entries), slot, links);
    case Apply(best) =>
      ApplyAgreesAt(s, best, s', gid, p);
    case Reroute(sel) =>
      RerouteAgreesAt(s, sel, s', gid, p);
    case Resolve(_) =>
      if s.groups[p].disabled {
        UnappliedInactive(s.groups[p].entries);
      }
    case Close =>
    case Foreign(ip, sl) =>
      PutChanges(s.kernel.table, ip, sl);
      if p == ip && !s.groups[p].disabled {
        UnappliedInactive(s.groups[p].entries);
      }
  }

  lemma AddAgreesAt(s: State, path: NetworkPath, ip: Prefix, disabled: bool)
    requires Holds(s) && Undisturbed(s, Add(path, ip, disabled))
    ensures var g, slot, links := AddedTo(s.groups, path, ip, disabled)[ip], Lookup(s.kernel.table, ip), s.kernel.links;
            && GroupHolds(g, slot, links)
            && (Fresh(s, Add(path, ip, disabled)) && AllAgree(s) ==> GroupAgrees(g, slot, links))
  {
    var slot, links := Lookup(s.kernel.table, ip), s.kernel.links;
    var g := GroupAt(s.groups, ip, disabled, path.groupID);
    var e := NewEntry(path);
    AddedKeeps(g.entries, e);
    AddedLinks(g, e, links);
    if g.disabled || Agrees(g.entries, slot) {
      AddedAgrees(g, e, slot, links);
    } else {
      assert Added(g.entries, e) != [] && Unapplied(g.entries);
    }
  }

  // Marks change neither gateways nor what is active.
  lemma MarkAgreesAt(g: Group, l': seq<Entry>, slot: Slot, links: set<string>)
    requires GroupHolds(g, slot, links) && SameRoutes(g.entries, l')
    requires WellFormed(l') && (Unapplied(g.entries) ==> Unapplied(l')) && (g.disabled ==> l' != [])
    ensures GroupHolds(g.(entries := l'), slot, links)
    ensures GroupAgrees(g, slot, links) ==> GroupAgrees(g.(entries := l'), slot, links)
  {
    if GroupAgrees(g, slot, links) {
      MarkedAgrees(g, l', slot, links);
    } else {
      WaitingMarked(g, l', slot);
      forall x | x in l' ensures x.ifname in links {
        var i :| 0 <= i < |l'| && l'[i] == x;
        assert g.entries[i] in g.entries;
      }
    }
  }

  // What a commit makes of one destination.
  lemma CommittedAt(s: State, best: SelectedRoute, s': State, gid: int, p: Prefix)
    requires Step(s, Apply(best), s', gid) && Alone(s.kernel.table.Keys, s.groups.Keys)
    ensures p in s'.groups ==> p in s.groups
    ensures p in s.groups ==>
              var slot := Lookup(s.kernel.table, p);
              && Applied(s.groups[p], best.ip, Found(slot)) == (if p in s'.groups then Some(s'.groups[p]) else None)
              && Lookup(s'.kernel.table, p) == AppliedSlot(slot, s.kernel.links, s.groups[p], best.ip, Found(slot))
              && s'.kernel.links == s.kernel.links
  {
    hide Applied, AppliedSlot;
    var answers :| ApplyStep(s, best, answers, s', gid);
    AnswersAlone(s.kernel.table, s.groups, answers);
    if p in s.groups {
      assert AppliedAt(s.groups, answers, p, best.ip) == Applied(s.groups[p], best.ip, answers[p]);
    }
  }

  lemma ApplyAgreesAt(s: State, best: SelectedRoute, s': State, gid: int, p: Prefix)
    requires Holds(s) && Step(s, Apply(best), s', gid) && Undisturbed(s, Apply(best)) && p in s'.groups
    ensures GroupAgrees(s'.groups[p], Lookup(s'.kernel.table, p), s'.kernel.links)
  {
    CommittedAt(s, best, s', gid, p);
    var g, slot, links := s.groups[p], Lookup(s.kernel.table, p), s.kernel.links;
    hide Step, Adopts, Applied, AppliedSlot;
    if Awaiting(g, slot) {
      AdoptedExactly(g, slot, links, best.ip);
      AppliedKeeps(g, best.ip, Found(slot));
      AppliedLinks(g, links, best.ip, Found(slot));
    } else {
      AppliedAgrees(g, slot, links, best.ip);
    }
  }

  lemma RerouteAgreesAt(s: State, sel: Option<SelectedRoute>, s': State, gid: int, p: Prefix)
    requires Holds(s) && Step(s, Reroute(sel), s', gid) && Undisturbed(s, Reroute(sel)) && p in s'.groups
    ensures GroupHolds(s'.groups[p], Lookup(s'.kernel.table, p), s'.kernel.links)
    ensures AllAgree(s) ==> GroupAgrees(s'.groups[p], Lookup(s'.kernel.table, p), s'.kernel.links)
  {
    var answers :| RerouteStep(s, sel, answers, s', gid);
    AnswersAlone(s.kernel.table, s.groups, answers);
    var g, slot, links, gw := s.groups[p], Lookup(s.kernel.table, p), s.kernel.links, SelectedAddr(sel);
    hide KeepsWaiting;
    if !g.disabled {
      hide Rerouted, MovedSlot, Agrees, LinksExist, WellFormed, Unapplied, Adoptable;
      if Awaiting(g, slot) {
        WaitingRerouted(g, slot, links, gw);
        ReroutedLinks(g, links, gw);
        WaitingDisagrees(g, slot);
      } else {
        ReroutedAgrees(g, slot, links, gw);
      }
    }
  }

  lemma CommitFails(s: State, best: SelectedRoute, s': State, gid: int, p: Prefix)
    requires Holds(s) && Step(s, Apply(best), s', gid) && Alone(s.kernel.table.Keys, s.groups.Keys) && p in s.groups
    requires Awaiting(s.groups[p], Lookup(s.kernel.table, p)) && !Adopts(s.groups[p].entries, Lookup(s.kernel.table, p), best.ip)
    ensures !AllAgree(s')
  {
    CommittedAt(s, best, s', gid, p);
    AdoptedExactly(s.groups[p], Lookup(s.kernel.table, p), s.kernel.links, best.ip);
    assert Applied(s.groups[p], best.ip, Found(Lookup(s.kernel.table, p))).Some? ==> !s'.groups[p].disabled;
    hide Step, Applied, AppliedSlot, Adopts, Agrees, LinksExist, Uncommitted;
    assert p in s'.groups && !GroupAgrees(s'.groups[p], Lookup(s'.kernel.table, p), s'.kernel.links);
  }

  lemma RerouteFails(s: State, sel: Option<SelectedRoute>, s': State, gid: int, p: Prefix)
    requires Holds(s) && Step(s, Reroute(sel), s', gid) && Alone(s.kernel.table.Keys, s.groups.Keys) && p in s.groups
    requires Awaiting(s.groups[p], Lookup(s.kernel.table, p))
    requires !KeepsWaiting(s.groups[p].entries, Lookup(s.kernel.table, p), SelectedAddr(sel))
    ensures !Holds(s')
  {
    hide KeepsWaiting, Rerouted, MovedSlot, Agrees, LinksExist, Uncommitted;
    var answers :| RerouteStep(s, sel, answers, s', gid);
    AnswersAlone(s.kernel.table, s.groups, answers);
    WaitingRerouted(s.groups[p], Lookup(s.kernel.table, p), s.kernel.links, SelectedAddr(sel));
    assert p in s'.groups && !GroupHolds(s'.groups[p], Lookup(s'.kernel.table, p), s'.kernel.links);
  }

  /** The demands made of a commit and of a reroute are exact: a step that does not meet them ends in disagreement. */
  lemma DemandsExact(s: State, op: Op, s': State, gid: int)
    requires Holds(s) && Step(s, op, s', gid) && Alone(s.kernel.table.Keys, s.groups.Keys)
    ensures op.Apply? ==> (AllAgree(s') <==> Undisturbed(s, op))
    ensures op.Reroute? ==> (Holds(s') <==> Undisturbed(s, op))
  {
    hide Holds, AllAgree, Step, Adopts, KeepsWaiting, Awaiting;
    if Undisturbed(s, op) {
      StepAgrees(s, op, s', gid);
    } else if op.Apply? {
      var p :| p in s.groups && Awaiting(s.groups[p], Lookup(s.kernel.table, p))
               && !Adopts(s.groups[p].entries, Lookup(s.kernel.table, p), op.best.ip);
      CommitFails(s, op.best, s', gid, p);
    } else if op.Reroute? {
      var p :| p in s.groups && Awaiting(s.groups[p], Lookup(s.kernel.table, p))
               && !KeepsWaiting(s.groups[p].entries, Lookup(s.kernel.table, p), SelectedAddr(op.sel));
      RerouteFails(s, op.sel, s', gid, p);
    }
  }

  /** A restart with two gateways and the old route over the second: its commit adopts the route. With a route over the
      first, and the second deleted again before the commit, it does not while nothing is selected. */
  lemma Restarted(a: NetworkPath, b: NetworkPath, p: Prefix, s: Slot)
    requires a.gateway != b.gateway && s.Some?
    ensures var m := AddedTo(AddedTo(map[], a, p, false), b, p, false);
            s.value.ifname == b.ifname ==> Awaiting(m[p], s) && Adopts(m[p].entries, s, None)
    ensures var m := MarkedIn(AddedTo(AddedTo(map[], a, p, false), b, p, false), b, p);
            s.value.ifname == a.ifname ==> Awaiting(m[p], s) && !Adopts(m[p].entries, s, None)
  {
    var x, y := NewEntry(a).(pendingAdd := true), NewEntry(b).(pendingAdd := true);
    var m := AddedTo(AddedTo(map[], a, p, false), b, p, false);
    assert m[p].entries == [x, y] && y in [x, y];
    var z := y.(pendingDel := true);
    assert MarkedIn(m, b, p)[p].entries == [x, z] && z in [x, z] && x in [x, z];
  }

  // ---- Runs --------------------------------------------------------------------------

  ghost predicate IsRun(states: seq<State>, ops: seq<Op>, gid: int) {
    && |states| == |ops| + 1
    && states[0].groups == map[] && states[0].connID == 0 && states[0].reports == []
    && forall i :: 0 <= i < |ops| ==> Step(states[i], ops[i], states[i + 1], gid)
  }

  ghost predicate IsUndisturbedRun(states: seq<State>, ops: seq<Op>, gid: int) {
    IsRun(states, ops, gid) && forall i :: 0 <= i < |ops| ==> Undisturbed(states[i], ops[i])
  }

  /** In every state of every run, whatever happens to the kernel: gateways are distinct, at most one is active, and
      a disabled destination has gateways, all of them still to be added and none active. */
  lemma {:induction false} RunWellFormed(states: seq<State>, ops: seq<Op>, gid: int, n: nat)
    requires IsRun(states, ops, gid) && n <= |ops|
    ensures MonitorOk(states[n].groups)
  {
    if n > 0 {
      RunWellFormed(states, ops, gid, n - 1);
      StepWellFormed(states[n - 1], ops[n - 1], states[n], gid);
    }
  }

  lemma StepWellFormed(s: State, op: Op, s': State, gid: int)
    requires MonitorOk(s.groups) && Step(s, op, s', gid)
    ensures MonitorOk(s'.groups)
  {
    hide WellFormed, Unapplied, Applied, Rerouted;
    forall p | p in s'.groups ensures GroupOk(s'.groups[p]) {
      match op
      case Add(path, ip, disabled) =>
        AddedKeeps(GroupAt(s.groups, ip, disabled, path.groupID).entries, NewEntry(path));
        EmptyOk();
      case Del(path, ip) =>
        MarkedKeeps(s.groups[p].entries, path.gateway);
      case Flush =>
        MarkedKeeps(s.groups[p].entries, 0);
      case Apply(best) =>
        var answers :| ApplyStep(s, best, answers, s', gid);
        AppliedKeeps(s.groups[p], best.ip, Answer(answers, p));
        assert AppliedAt(s.groups, answers, p, best.ip).Some?;
      case Reroute(sel) =>
        var answers :| RerouteStep(s, sel, answers, s', gid);
        AppliedKeeps(s.groups[p], SelectedAddr(sel), None);
      case Resolve(_) =>
      case Close =>
      case Foreign(_, _) =>
    }
  }

  lemma EmptyOk()
    ensures WellFormed([]) && Unapplied([])
  {
  }

  /** In every state of every undisturbed run, the kernel routes each enabled destination over exactly the
      interface of its active gateway, and not at all when none is active; or its list has not been committed
      since it was enabled, and the destination had a route before. After a commit there is none of the latter,
      and throughout when no destination had a route. */
  lemma {:induction false} RunAgrees(states: seq<State>, ops: seq<Op>, gid: int, n: nat)
    requires IsUndisturbedRun(states, ops, gid) && n <= |ops|
    ensures Holds(states[n])
    ensures n > 0 && ops[n - 1].Apply? ==> AllAgree(states[n])
    ensures (forall i :: 0 <= i < n ==> Fresh(states[i], ops[i])) ==> AllAgree(states[n])
  {
    if n > 0 {
      RunAgrees(states, ops, gid, n - 1);
      hide Step, Undisturbed, Holds, AllAgree, Fresh;
      StepAgrees(states[n - 1], ops[n - 1], states[n], gid);
    }
  }

  /** A destination that leaves the map during a run has no route left, except when the monitor is closed before the
      first commit of a list whose destination had one. */
  lemma NoRouteLeftBehind(states: seq<State>, ops: seq<Op>, gid: int, n: nat, p: Prefix)
    requires IsUndisturbedRun(states, ops, gid) && n < |ops|
    requires p in states[n].groups && !states[n].groups[p].disabled && p !in states[n + 1].groups
    ensures Lookup(states[n + 1].kernel.table, p).Some? <==>
            ops[n].Close? && Awaiting(states[n].groups[p], Lookup(states[n].kernel.table, p))
  {
    RunAgrees(states, ops, gid, n);
    StepAgrees(states[n], ops[n], states[n + 1], gid);
  }

  ghost predicate Chain(reports: seq<Report>, first: int, last: int) {
    if reports == [] then first == last
    else && Chain(reports[..|reports| - 1], first, reports[|reports| - 1].prevID)
         && reports[|reports| - 1].newID == last
         && reports[|reports| - 1].prevID != last
  }

  // The connection and the reason that an operation brings; only commits and reroutes do.
  function Brought(op: Op, connID: int): (int, string) {
    match op
    case Apply(best) => (best.id, best.reason.Text())
    case Reroute(Some(sel)) => (sel.id, sel.reason.Text())
    case Reroute(None) => (0, "")
    case _ => (connID, "")
  }

  /** A commit or reroute takes over the connection of the answer, 0 without one, and reports it with the reason, once, if it
      is another one; nothing else reports. */
  lemma StepReports(s: State, op: Op, s': State, gid: int)
    requires Step(s, op, s', gid)
    ensures s'.connID == Brought(op, s.connID).0
    ensures s'.connID == s.connID ==> s'.reports == s.reports
    ensures s'.connID != s.connID ==>
              s'.reports == s.reports + [Report(s.connID, s'.connID, gid, Brought(op, s.connID).1)]
  {
    hide KernelApplied, KernelRerouted, AppliedAll, ReroutedAll, AddedTo, MarkedIn, Flushed, Resolved;
  }

  /** The reports of a run lead from 0 to the current connection, each from where the one before ended,
      and none from a connection to itself. */
  lemma {:induction false} ReportsChain(states: seq<State>, ops: seq<Op>, gid: int, n: nat)
    requires IsRun(states, ops, gid) && n <= |ops|
    ensures Chain(states[n].reports, 0, states[n].connID) && forall r :: r in states[n].reports ==> r.groupID == gid
  {
    if n > 0 {
      hide Step;
      ReportsChain(states, ops, gid, n - 1);
      var s, s' := states[n - 1], states[n];
      StepReports(s, ops[n - 1], s', gid);
      if s'.connID != s.connID {
        assert s'.reports[..|s'.reports| - 1] == s.reports;
      } else {
        assert s'.reports == s.reports;
      }
    }
  }
}
