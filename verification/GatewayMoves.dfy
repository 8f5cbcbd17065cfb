/**
 What the operations of a service group do, told entry by entry and without the functions that
 compute it: where a merge, a reroute and a first commit lead (agent/router/servicemon/apply.go,
 reroute.go), and what an addition and a mark change (list.go).
 */
module GatewayMoves {
  import opened Net
  import opened GatewayLists
  import opened Monitors

  // ---- Additions and marks ---------------------------------------------------------

  function Gateways(l: seq<Entry>): seq<Addr> {
    seq(|l|, i requires 0 <= i < |l| => l[i].gateway)
  }

  // The same entries in the same order, but for marks for deletion of those of the gateway.
  ghost predicate OnlyMarks(l: seq<Entry>, r: seq<Entry>, gw: Addr, del: bool) {
    && |r| == |l|
    && forall i :: 0 <= i < |l| ==>
         r[i].pendingDel == (if l[i].gateway == gw then del else l[i].pendingDel) && r[i] == l[i].(pendingDel := r[i].pendingDel)
  }

  /** A new gateway comes last, as the path says, and is to be added; a known one loses its mark, and what the path says
      of interface, key and connection is ignored. */
  lemma AdditionExact(m: Monitor, path: NetworkPath, ip: Prefix, disabled: bool)
    ensures var r := AddedTo(m, path, ip, disabled);
            && r.Keys == m.Keys + {ip} && (forall p :: p in m && p != ip ==> r[p] == m[p])
            && (if ip in m then r[ip].disabled == m[ip].disabled && r[ip].groupID == m[ip].groupID
                else r[ip].disabled == disabled && r[ip].groupID == path.groupID)
    ensures var l, r := if ip in m then m[ip].entries else [], AddedTo(m, path, ip, disabled)[ip].entries;
            if path.gateway in Gateways(l) then OnlyMarks(l, r, path.gateway, false)
            else r == l + [Entry(path.ifname, path.publicKey, path.gateway, path.connectionID, true, false, false)]
  {
    var l := if ip in m then m[ip].entries else [];
    if path.gateway in Gateways(l) {
      var i :| 0 <= i < |l| && Gateways(l)[i] == path.gateway;
      assert l[i] in l;
    } else {
      assert forall i :: 0 <= i < |l| ==> Gateways(l)[i] == l[i].gateway;
    }
  }

  lemma DeletionExact(m: Monitor, path: NetworkPath, ip: Prefix)
    ensures var r := MarkedIn(m, path, ip);
            && r.Keys == m.Keys && (forall p :: p in m && p != ip ==> r[p] == m[p])
            && (ip in m ==> && r[ip] == m[ip].(entries := r[ip].entries)
                            && OnlyMarks(m[ip].entries, r[ip].entries, path.gateway, true))
  {
  }

  /** A list stays disabled iff it was and its prefix is still in conflict, and nothing else of it changes; what is counted
      are those enabled. */
  lemma ResolvedExactly(m: Monitor, isIPconflict: Prefix -> bool)
    ensures var r := Resolved(m, isIPconflict);
            && r.Keys == m.Keys
            && (forall p :: p in m ==> r[p] == m[p].(disabled := r[p].disabled) && (r[p].disabled <==> m[p].disabled && isIPconflict(p)))
            && |ResolvedKeys(m, m.Keys, isIPconflict)| == |set p | p in m && m[p].disabled && !r[p].disabled|
  {
    var r := Resolved(m, isIPconflict);
    assert ResolvedKeys(m, m.Keys, isIPconflict) == set p | p in m && m[p].disabled && !r[p].disabled;
  }

  /** A prefix is claimed iff its list is enabled and has something to add or something that stays. */
  lemma LiveExactly(g: Group)
    ensures Live(g) <==> !g.disabled && !(forall i :: 0 <= i < |g.entries| ==> !g.entries[i].pendingAdd && g.entries[i].pendingDel)
  {
    if Live(g) {
      var e :| e in g.entries && (e.pendingAdd || !e.pendingDel);
    }
    if i :| 0 <= i < |g.entries| && (g.entries[i].pendingAdd || !g.entries[i].pendingDel) {
      assert g.entries[i] in g.entries;
    }
  }

  /** A list leaves the map with a commit iff it is enabled, not empty, and all of it installed and to be deleted. */
  lemma LeavesExactly(g: Group, best: Option<Addr>, found: Option<string>)
    ensures Applied(g, best, found).None? <==>
            !g.disabled && g.entries != [] && forall e :: e in g.entries ==> !e.pendingAdd && e.pendingDel
  {
    if g.entries != [] {
      assert g.entries[0] in g.entries;
    }
  }

  // ---- Merges and reroutes -------------------------------------------------------------

  // Where a merge leads, and where a reroute does.
  ghost predicate IsTarget(l: seq<Entry>, gw: Option<Addr>, x: Entry) {
    x in l && gw == Some(x.gateway) && !x.pendingDel
  }

  ghost predicate IsChosen(l: seq<Entry>, gw: Option<Addr>, x: Entry) {
    x in l && gw == Some(x.gateway)
  }

  lemma TargetExactly(l: seq<Entry>, gw: Option<Addr>)
    requires WellFormed(l)
    ensures forall x :: IsTarget(l, gw, x) <==> Target(l, gw) == Some(x)
    ensures forall x :: IsChosen(l, gw, x) <==> Chosen(l, gw) == Some(x)
  {
    forall x | IsChosen(l, gw, x) ensures Chosen(l, gw) == Some(x) {
      Unique(l, x);
    }
  }

  /** A merge activates the selected gateway if it is listed and stays, however new it is, and else nothing. */
  lemma MergeLeads(l: seq<Entry>, gw: Option<Addr>)
    requires WellFormed(l)
    ensures forall x :: IsTarget(l, gw, x) ==>
              Active(Merged(l, gw)) == Some(x.(active := true, pendingAdd := false, pendingDel := false))
    ensures (forall x :: !IsTarget(l, gw, x)) ==> Active(Merged(l, gw)).None?
  {
    TargetExactly(l, gw);
    KeptMembers(l);
    var k, t := Settled(Kept(l)), Target(l, gw);
    if t.Some? {
      assert IsTarget(l, gw, t.value);
      var i :| 0 <= i < |Kept(l)| && Kept(l)[i] == t.value;
      assert k[i] in k;
      ActivatedActive(k, Some(k[i]));
    } else {
      ActivatedActive(k, None);
    }
  }

  /** A reroute activates the selected gateway if it is listed at all, and else nothing. */
  lemma RerouteLeads(l: seq<Entry>, gw: Option<Addr>)
    requires WellFormed(l)
    ensures forall x :: IsChosen(l, gw, x) ==> Active(Rerouted(l, gw)) == Some(x.(active := true))
    ensures (forall x :: !IsChosen(l, gw, x)) ==> Active(Rerouted(l, gw)).None?
  {
    TargetExactly(l, gw);
    ActivatedActive(l, Chosen(l, gw));
    assert Chosen(l, gw).Some? ==> IsChosen(l, gw, Chosen(l, gw).value);
  }

  // The list and the kernel agree, and its interfaces exist.
  ghost predicate InStep(l: seq<Entry>, s: Slot, links: set<string>) {
    WellFormed(l) && Agrees(l, s) && forall e :: e in l ==> e.ifname in links
  }

  // The route goes over x: it is the one that was there if x was active, and a new one otherwise.
  ghost predicate GoesOver(s: Slot, s': Slot, x: Entry) {
    s' == if x.active then s else Some(Route(x.ifname, None))
  }

  /** The kernel follows a merge: the route goes over the selected gateway if that is listed and stays, and is deleted
      otherwise. */
  lemma MergeFollowed(g: Group, s: Slot, links: set<string>, best: Option<Addr>)
    requires !g.disabled && PhaseOf(g.entries) == Merge && InStep(g.entries, s, links)
    ensures var s' := AppliedSlot(s, links, g, best, Found(s));
            && (forall x :: IsTarget(g.entries, best, x) ==> GoesOver(s, s', x))
            && ((forall x :: !IsTarget(g.entries, best, x)) ==> s'.None?)
  {
    TargetExactly(g.entries, best);
    MovesTo(g.entries, s, links, Target(g.entries, best));
  }

  /** And a reroute, where marks for deletion do not matter. */
  lemma RerouteFollowed(g: Group, s: Slot, links: set<string>, gw: Option<Addr>)
    requires !g.disabled && InStep(g.entries, s, links)
    ensures var s' := ReroutedSlot(s, links, g, gw, Found(s));
            && (forall x :: IsChosen(g.entries, gw, x) ==> GoesOver(s, s', x))
            && ((forall x :: !IsChosen(g.entries, gw, x)) ==> s'.None?)
  {
    TargetExactly(g.entries, gw);
    MovesTo(g.entries, s, links, Chosen(g.entries, gw));
  }

  // All enabled lists of a monitor agree with the kernel, and no other destination has one of their addresses.
  ghost predicate AllInStep(k: Kernel, m: Monitor) {
    && Alone(k.table.Keys, m.Keys)
    && forall p :: p in m && !m[p].disabled ==> InStep(m[p].entries, Lookup(k.table, p), k.links)
  }

  /** So a whole monitor follows the selected gateway. */
  lemma MonitorRerouted(k: Kernel, k': Kernel, m: Monitor, gw: Option<Addr>, answers: Answers, p: Prefix)
    requires AllInStep(k, m) && KernelRerouted(k, k', m, gw, answers) && p in m && !m[p].disabled
    ensures forall x :: IsChosen(m[p].entries, gw, x) ==> GoesOver(Lookup(k.table, p), Lookup(k'.table, p), x)
    ensures (forall x :: !IsChosen(m[p].entries, gw, x)) ==> Lookup(k'.table, p).None?
  {
    AnswersAlone(k.table, m, answers);
    RerouteFollowed(m[p], Lookup(k.table, p), k.links, gw);
  }

  lemma MonitorMerged(k: Kernel, k': Kernel, m: Monitor, best: Option<Addr>, answers: Answers, p: Prefix)
    requires AllInStep(k, m) && KernelApplied(k, k', m, best, answers)
    requires p in m && !m[p].disabled && PhaseOf(m[p].entries) == Merge
    ensures forall x :: IsTarget(m[p].entries, best, x) ==> GoesOver(Lookup(k.table, p), Lookup(k'.table, p), x)
    ensures (forall x :: !IsTarget(m[p].entries, best, x)) ==> Lookup(k'.table, p).None?
  {
    AnswersAlone(k.table, m, answers);
    MergeFollowed(m[p], Lookup(k.table, p), k.links, best);
  }

  lemma MovesTo(l: seq<Entry>, s: Slot, links: set<string>, next: Option<Entry>)
    requires InStep(l, s, links) && (next.Some? ==> next.value in l)
    ensures var s' := MovedSlot(s, links, s.Some?, Active(l), next);
            if next.Some? then GoesOver(s, s', next.value) else s'.None?
  {
    if next.Some? {
      Unique(l, next.value);
      if Active(l).Some? {
        Unique(l, Active(l).value);
      }
    }
  }

  // ---- First commits -----------------------------------------------------------------

  /** Active first, else the first gateway that stays. */
  lemma DefaultExactly(l: seq<Entry>, i: nat)
    requires WellFormed(l) && i < |l|
    requires l[i].active || (!l[i].pendingDel && forall j :: 0 <= j < |l| ==> !l[j].active && (j < i ==> l[j].pendingDel))
    ensures Default(l) == Some(l[i])
  {
    if l[i].active {
      Unique(l, l[i]);
    } else {
      FirstAt(l, (e: Entry) => !e.pendingDel, i);
    }
  }

  lemma DefaultNone(l: seq<Entry>)
    requires forall j :: 0 <= j < |l| ==> !l[j].active && l[j].pendingDel
    ensures Default(l).None?
  {
  }

  /** A list that is committed for the first time takes its first gateway for a free destination, and the first one on
      the interface for one that has a route, which is left alone. The controller is told of that gateway's connection. */
  lemma FirstCommit(g: Group, dest: Prefix, s: Slot, links: set<string>, best: Option<Addr>, i: nat)
    requires GroupOk(g) && !g.disabled && PhaseOf(g.entries) == Set && Unapplied(g.entries) && i < |g.entries|
    requires if s.None? then i == 0
             else g.entries[i].ifname == s.value.ifname && forall j :: 0 <= j < i ==> g.entries[j].ifname != s.value.ifname
    ensures var r := Applied(g, best, Found(s));
            r.Some? && Active(r.value.entries) == Some(g.entries[i].(active := true, pendingAdd := false))
    ensures var x := g.entries[i];
            && AppliedSlot(s, links, g, best, Found(s)) ==
                 (if s.Some? then s else if x.ifname in links then Some(Route(x.ifname, None)) else None)
            && StatusOf(g, dest, links, Found(s)) == Some(RouteStatus(dest, x.connectionID, g.groupID, s.Some? || x.ifname in links))
  {
    var l, x := g.entries, g.entries[i];
    assert x in l && l[0] in l;
    forall j | 0 <= j < |l| ensures !l[j].active && !l[j].pendingDel {
      assert l[j] in l;
    }
    if s.None? {
      DefaultExactly(l, 0);
    } else {
      FirstAt(l, (e: Entry) => e.ifname == s.value.ifname, i);
    }
    ActivatedActive(l, Some(x));
  }

  /** If no gateway is on that interface, nothing is active afterwards and nothing is told. */
  lemma FirstCommitRefused(g: Group, dest: Prefix, s: Slot, links: set<string>, best: Option<Addr>)
    requires GroupOk(g) && !g.disabled && PhaseOf(g.entries) == Set && Unapplied(g.entries) && s.Some?
    requires forall e :: e in g.entries ==> e.ifname != s.value.ifname
    ensures var r := Applied(g, best, Found(s)); r.Some? && Active(r.value.entries).None?
    ensures AppliedSlot(s, links, g, best, Found(s)) == s && StatusOf(g, dest, links, Found(s)).None?
  {
    SettledActive(g.entries);
  }
}
