/**
 The router over all connection groups (agent/router): which group may use a prefix
 that several groups have, and the loop that commits changes and resolves such
 conflicts. The monitors of a group appear here as values; ServiceMon shows that the
 service monitor computes them.
 */
module Router {
  import opened Net
  import opened SelectedRoutes
  import opened GatewayLists
  import opened Monitors
  import opened PeerFlags

  datatype Peer = Peer(ifname: string, flags: bv8) {
    predicate Has(f: bv8) {
      HasFlag(flags, f)
    }
  }

  datatype RouterGroup = RouterGroup(peers: map<Prefix, Peer>, services: Monitor, connID: int)

  type Groups = map<int, RouterGroup>

  predicate HasPeer(peers: map<Prefix, Peer>, ip: Prefix) {
    ip in peers && IsOffered(peers[ip].flags)
  }

  /** No peer ever claims its address, enabled or not. */
  lemma HasPeerNever(peers: map<Prefix, Peer>, ip: Prefix)
    ensures !HasPeer(peers, ip)
  {
    if ip in peers {
      NeverOffered(peers[ip].flags);
    }
  }

  predicate HasAddress(m: Monitor, ip: Prefix) {
    ip in m && Live(m[ip])
  }

  // ---- Claims -----------------------------------------------------------------------

  predicate LiveAt(gs: Groups, g: int, ip: Prefix) {
    g in gs && HasAddress(gs[g].services, ip)
  }

  ghost predicate ClaimedElsewhere(gs: Groups, g: int, ip: Prefix) {
    exists g' :: g' != g && LiveAt(gs, g', ip)
  }

  datatype EntryId = PeerAt(gid: int, ip: Prefix) | ServiceAt(gid: int, ip: Prefix)

  ghost predicate IsDisabled(gs: Groups, e: EntryId) {
    e.gid in gs &&
    match e
    case PeerAt(g, p) => p in gs[g].peers && gs[g].peers[p].Has(PIF_DISABLED)
    case ServiceAt(g, p) => p in gs[g].services && gs[g].services[p].disabled
  }

  ghost function DisabledEntries(gs: Groups): (s: set<EntryId>)
    ensures forall e :: e in s <==> IsDisabled(gs, e)
  {
    (set g, p | g in gs && p in gs[g].peers && gs[g].peers[p].Has(PIF_DISABLED) :: PeerAt(g, p)) +
    (set g, p | g in gs && p in gs[g].services && gs[g].services[p].disabled :: ServiceAt(g, p))
  }

  ghost predicate GroupsOk(gs: Groups) {
    forall g :: g in gs ==> MonitorOk(gs[g].services)
  }

  // From `was` to `gs` some entries have been enabled, and nothing else has changed.
  ghost predicate OnlyEnabled(was: Groups, gs: Groups) {
    gs.Keys == was.Keys && forall g :: g in gs ==> GroupEnabled(was[g], gs[g])
  }

  ghost predicate GroupEnabled(was: RouterGroup, g: RouterGroup) {
    && g.connID == was.connID
    && g.peers.Keys == was.peers.Keys && g.services.Keys == was.services.Keys
    && (forall p :: p in g.peers ==> g.peers[p] == was.peers[p] || g.peers[p] == PeerEnabled(was.peers[p]))
    && (forall p :: p in g.services ==> g.services[p] == was.services[p] || g.services[p] == was.services[p].(disabled := false))
  }

  function PeerEnabled(peer: Peer): Peer {
    peer.(flags := WithoutFlag(peer.flags, PIF_DISABLED))
  }

  ghost predicate SameKeys(gs: Groups, gs': Groups) {
    && gs.Keys == gs'.Keys
    && forall g :: g in gs ==> gs'[g].peers.Keys == gs[g].peers.Keys && gs'[g].services.Keys == gs[g].services.Keys
  }

  ghost predicate IsEntry(gs: Groups, e: EntryId) {
    e.gid in gs && if e.PeerAt? then e.ip in gs[e.gid].peers else e.ip in gs[e.gid].services
  }

  // Every entry of the groups that have been visited is done.
  ghost predicate AllDone(gs: Groups, todo: set<int>, done: set<EntryId>) {
    forall e :: IsEntry(gs, e) && e.gid !in todo ==> e in done
  }

  lemma DoneNext(gs: Groups, gs': Groups, todo: set<int>, done: set<EntryId>, done': set<EntryId>, gid: int)
    requires AllDone(gs, todo, done) && SameKeys(gs, gs') && done <= done' && gid in gs
    requires forall p :: p in gs'[gid].peers ==> PeerAt(gid, p) in done'
    requires forall p :: p in gs'[gid].services ==> ServiceAt(gid, p) in done'
    ensures AllDone(gs', todo - {gid}, done')
  {
    forall e | IsEntry(gs', e) && e.gid !in todo - {gid} ensures e in done' {
      if e.gid != gid {
        assert IsEntry(gs, e);
      }
    }
  }

  // No claim is lost, and a new claim is the only one for its prefix.
  ghost predicate NoSecondClaim(was: Groups, gs: Groups) {
    && (forall g, p :: LiveAt(was, g, p) ==> LiveAt(gs, g, p))
    && (forall g, p :: LiveAt(gs, g, p) && !LiveAt(was, g, p) ==> !ClaimedElsewhere(gs, g, p))
  }

  // What is still disabled has a claimant in another group.
  ghost predicate Justified(gs: Groups, e: EntryId) {
    IsDisabled(gs, e) ==> ClaimedElsewhere(gs, e.gid, e.ip)
  }

  // ---- What the controller asks for ----------------------------------------------------

  function GroupOf(gs: Groups, gid: int): RouterGroup {
    if gid in gs then gs[gid] else RouterGroup(map[], map[], 0)
  }

  // A new service is disabled when another group claims its prefix.
  ghost function ServiceAdded(gs: Groups, path: NetworkPath, ip: Prefix): Groups {
    var g := GroupOf(gs, path.groupID);
    gs[path.groupID := g.(services := AddedTo(g.services, path, ip, ClaimedElsewhere(gs, path.groupID, ip)))]
  }

  function ServiceDeleted(gs: Groups, path: NetworkPath, ip: Prefix): Groups {
    if path.groupID !in gs then gs
    else gs[path.groupID := gs[path.groupID].(services := MarkedIn(gs[path.groupID].services, path, ip))]
  }

  function AddedPeer(peers: map<Prefix, Peer>, ifname: string, dest: Prefix, disabled: bool): map<Prefix, Peer> {
    peers[dest := Peer(ifname, AddedFlags(if dest in peers then peers[dest].flags else PIF_NONE, disabled))]
  }

  // `dest` is the single address of the path's gateway.
  ghost function PeerAdded(gs: Groups, path: NetworkPath, dest: Prefix): Groups {
    var g := GroupOf(gs, path.groupID);
    gs[path.groupID := g.(peers := AddedPeer(g.peers, path.ifname, dest, ClaimedElsewhere(gs, path.groupID, dest)))]
  }

  function MarkedPeer(peer: Peer): Peer {
    peer.(flags := DeletedFlags(peer.flags))
  }

  function PeerDeleted(gs: Groups, path: NetworkPath, dest: Prefix): Groups {
    if path.groupID !in gs || dest !in gs[path.groupID].peers then gs
    else
      var g := gs[path.groupID];
      gs[path.groupID := g.(peers := g.peers[dest := MarkedPeer(g.peers[dest])])]
  }

  function GroupFlushed(g: RouterGroup): RouterGroup {
    g.(peers := map p | p in g.peers :: MarkedPeer(g.peers[p]), services := Flushed(g.services))
  }

  function AllFlushed(gs: Groups): Groups {
    map gid | gid in gs :: GroupFlushed(gs[gid])
  }

  // ---- Resolving conflicts ----------------------------------------------------------

  function Enabled(gs: Groups, e: EntryId): Groups
    requires IsEntry(gs, e)
  {
    var g := gs[e.gid];
    match e
    case PeerAt(_, p) => gs[e.gid := g.(peers := g.peers[p := PeerEnabled(g.peers[p])])]
    case ServiceAt(_, p) => gs[e.gid := g.(services := g.services[p := g.services[p].(disabled := false)])]
  }

  // The visit of one entry: it is enabled iff it is disabled and nobody else claims its prefix.
  ghost predicate EntryResolved(gs: Groups, gs': Groups, e: EntryId, n: nat)
    requires IsEntry(gs, e)
  {
    if IsDisabled(gs, e) && !ClaimedElsewhere(gs, e.gid, e.ip) then gs' == Enabled(gs, e) && n == 1
    else gs' == gs && n == 0
  }

  // What a resolving pass that started from `was` and has treated `done` maintains.
  ghost predicate Resolving(was: Groups, gs: Groups, count: nat, done: set<EntryId>) {
    && GroupsOk(gs) && OnlyEnabled(was, gs) && NoSecondClaim(was, gs)
    && DisabledEntries(gs) <= DisabledEntries(was)
    && count + |DisabledEntries(gs)| == |DisabledEntries(was)|
    && forall e :: e in done ==> Justified(gs, e)
  }

  // The entry alone changes, so the others stay as disabled as they were.
  lemma EnabledEntries(gs: Groups, e: EntryId)
    requires IsEntry(gs, e)
    ensures var gs' := Enabled(gs, e);
            && SameKeys(gs, gs')
            && DisabledEntries(gs') == DisabledEntries(gs) - {e}
  {
    hide HasFlag, WithoutFlag;
    var gs' := Enabled(gs, e);
    if e.PeerAt? {
      FlagBits(gs[e.gid].peers[e.ip].flags, PIF_DISABLED, PIF_DISABLED);
    }
    forall x ensures IsDisabled(gs', x) <==> IsDisabled(gs, x) && x != e {
    }
  }

  lemma EnabledKeeps(was: Groups, gs: Groups, e: EntryId)
    requires IsEntry(gs, e) && IsDisabled(gs, e) && GroupsOk(gs) && OnlyEnabled(was, gs)
    ensures GroupsOk(Enabled(gs, e)) && OnlyEnabled(was, Enabled(gs, e))
  {
    hide HasFlag, WithoutFlag, WellFormed;
    var gs' := Enabled(gs, e);
    if e.PeerAt? {
      var f := was[e.gid].peers[e.ip].flags;
      FlagBits(f, PIF_DISABLED, PIF_DISABLED);
    } else {
      assert GroupOk(gs'[e.gid].services[e.ip]);
    }
    assert GroupEnabled(was[e.gid], gs'[e.gid]);
  }

  /** Enabling a service adds exactly its own claim, and enabling a peer none. */
  lemma EnabledClaims(gs: Groups, e: EntryId)
    requires IsDisabled(gs, e) && GroupsOk(gs)
    ensures forall h, q :: LiveAt(Enabled(gs, e), h, q) <==> LiveAt(gs, h, q) || e == ServiceAt(h, q)
  {
    hide HasFlag, WithoutFlag, WellFormed;
    if e.ServiceAt? {
      var s := gs[e.gid].services[e.ip];
      assert GroupOk(s) && s.entries[0] in s.entries;
      assert Live(s.(disabled := false));
    } else {
      assert Enabled(gs, e)[e.gid].services == gs[e.gid].services;
    }
  }

  lemma NewClaim(was: Groups, gs: Groups, gs': Groups, e: EntryId)
    requires NoSecondClaim(was, gs) && !ClaimedElsewhere(gs, e.gid, e.ip)
    requires forall h, q :: LiveAt(gs', h, q) <==> LiveAt(gs, h, q) || e == ServiceAt(h, q)
    ensures NoSecondClaim(was, gs')
  {
    hide LiveAt;
    forall h, q | LiveAt(gs', h, q) && !LiveAt(was, h, q) ensures !ClaimedElsewhere(gs', h, q) {
      if e != ServiceAt(h, q) {
        assert LiveAt(gs, h, q);
      }
    }
  }

  lemma StillJustified(gs: Groups, gs': Groups, e: EntryId)
    requires Justified(gs, e) && (IsDisabled(gs', e) ==> IsDisabled(gs, e))
    requires forall h, q :: LiveAt(gs, h, q) ==> LiveAt(gs', h, q)
    ensures Justified(gs', e)
  {
    hide LiveAt;
    if IsDisabled(gs', e) {
      var h :| h != e.gid && LiveAt(gs, h, e.ip);
      assert LiveAt(gs', h, e.ip);
    }
  }

  lemma ResolvingStarts(gs: Groups)
    requires GroupsOk(gs)
    ensures Resolving(gs, gs, 0, {})
  {
  }

  lemma ResolvingContinues(was: Groups, gs: Groups, count: nat, done: set<EntryId>, e: EntryId, gs': Groups, n: nat)
    requires Resolving(was, gs, count, done) && IsEntry(gs, e) && EntryResolved(gs, gs', e, n)
    ensures Resolving(was, gs', count + n, done + {e}) && SameKeys(gs, gs')
  {
    hide GroupsOk, OnlyEnabled, NoSecondClaim, Enabled, LiveAt, SameKeys;
    if n == 0 {
      assert SameKeys(gs, gs) by { Same(gs); }
    } else {
      EnabledEntries(gs, e);
      EnabledKeeps(was, gs, e);
      EnabledClaims(gs, e);
      NewClaim(was, gs, gs', e);
      forall x | x in done ensures Justified(gs', x) {
        assert IsDisabled(gs', x) ==> x in DisabledEntries(gs');
        StillJustified(gs, gs', x);
      }
      assert e !in DisabledEntries(gs');
    }
  }

  lemma Same(gs: Groups)
    ensures SameKeys(gs, gs)
  {
  }

  lemma TrailStarts(gs: Groups)
    ensures IsTrail(gs, [], gs) && Total([]) == 0 && Treated([]) == {}
  {
  }

  // The visits of a pass, one after the other.
  datatype Visit = Visit(e: EntryId, before: Groups, after: Groups, n: nat)

  ghost predicate IsTrail(gs: Groups, t: seq<Visit>, gs': Groups) {
    if t == [] then gs == gs'
    else
      var v := t[|t| - 1];
      && IsTrail(gs, t[..|t| - 1], v.before)
      && IsEntry(v.before, v.e) && EntryResolved(v.before, v.after, v.e, v.n) && v.after == gs'
  }

  ghost function Total(t: seq<Visit>): nat {
    if t == [] then 0 else Total(t[..|t| - 1]) + t[|t| - 1].n
  }

  ghost function Treated(t: seq<Visit>): set<EntryId> {
    if t == [] then {} else Treated(t[..|t| - 1]) + {t[|t| - 1].e}
  }

  lemma {:induction false} TrailAppend(gs: Groups, t: seq<Visit>, gs': Groups, u: seq<Visit>, gs'': Groups)
    requires IsTrail(gs, t, gs') && IsTrail(gs', u, gs'')
    ensures IsTrail(gs, t + u, gs'') && Total(t + u) == Total(t) + Total(u) && Treated(t + u) == Treated(t) + Treated(u)
    decreases |u|
  {
    if u == [] {
      assert t + u == t;
    } else {
      assert (t + u)[..|t + u| - 1] == t + u[..|u| - 1];
      TrailAppend(gs, t, gs', u[..|u| - 1], u[|u| - 1].before);
    }
  }

  lemma TrailNext(gs: Groups, t: seq<Visit>, gs': Groups, e: EntryId, gs'': Groups, n: nat)
    requires IsTrail(gs, t, gs') && IsEntry(gs', e) && EntryResolved(gs', gs'', e, n)
    ensures var u := t + [Visit(e, gs', gs'', n)];
            IsTrail(gs, u, gs'') && Total(u) == Total(t) + n && Treated(u) == Treated(t) + {e}
  {
    hide EntryResolved;
    assert (t + [Visit(e, gs', gs'', n)])[..|t|] == t;
  }

  /** Whatever the order of the visits, a pass keeps what Resolving says. */
  lemma {:induction false} TrailResolves(gs: Groups, t: seq<Visit>, gs': Groups)
    requires GroupsOk(gs) && IsTrail(gs, t, gs')
    ensures Resolving(gs, gs', Total(t), Treated(t)) && SameKeys(gs, gs')
    decreases |t|
  {
    hide Resolving, EntryResolved, SameKeys, GroupsOk;
    if t == [] {
      ResolvingStarts(gs);
      Same(gs);
    } else {
      var v := t[|t| - 1];
      TrailResolves(gs, t[..|t| - 1], v.before);
      ResolvingContinues(gs, v.before, Total(t[..|t| - 1]), Treated(t[..|t| - 1]), v.e, v.after, v.n);
      Transitive(gs, v.before, gs');
    }
  }

  lemma ResolvingEnds(was: Groups, gs: Groups, count: nat, done: set<EntryId>)
    requires Resolving(was, gs, count, done) && AllDone(gs, {}, done)
    ensures GroupsOk(gs) && OnlyEnabled(was, gs) && NoSecondClaim(was, gs)
    ensures forall e :: Justified(gs, e)
    ensures DisabledEntries(gs) <= DisabledEntries(was)
    ensures count == |DisabledEntries(was)| - |DisabledEntries(gs)|
  {
    hide GroupsOk, OnlyEnabled, NoSecondClaim;
    forall e ensures Justified(gs, e) {
      if IsDisabled(gs, e) {
        assert IsEntry(gs, e);
      }
    }
  }

  // ---- Committing one group ----------------------------------------------------------

  function PeerApplied(peer: Peer): Option<Peer> {
    if peer.Has(PIF_DISABLED) then
      if peer.Has(PIF_DEL_PENDING) then None else Some(peer)
    else if peer.Has(PIF_ADD_PENDING) then Some(peer.(flags := PIF_NONE))
    else if peer.Has(PIF_DEL_PENDING) then None
    else Some(peer)
  }

  function PeersApplied(peers: map<Prefix, Peer>): map<Prefix, Peer> {
    map p | p in peers && PeerApplied(peers[p]).Some? :: PeerApplied(peers[p]).value
  }

  // A peer's own route after the commit. Flags that ask for both are taken as an addition.
  function PeerSlot(k: Kernel, peers: map<Prefix, Peer>, q: Prefix, found: Option<string>): Slot {
    var s := Lookup(k.table, q);
    if q !in peers || peers[q].Has(PIF_DISABLED) then s
    else if peers[q].Has(PIF_ADD_PENDING) then AddSlot(s, k.links, found.Some?, Route(peers[q].ifname, None))
    else if peers[q].Has(PIF_DEL_PENDING) then DelSlot(s, k.links, peers[q].ifname)
    else s
  }

  ghost predicate PeersCommitted(k: Kernel, k': Kernel, peers: map<Prefix, Peer>, answers: Answers) {
    && k'.links == k.links && AreAnswers(k.table, peers.Keys, answers)
    && forall q :: Lookup(k'.table, q) == PeerSlot(k, peers, q, Answer(answers, q))
  }

  // Enabled peers and services have nothing left to commit.
  ghost predicate NothingPending(gs: Groups) {
    forall g :: g in gs ==> PeersIdle(gs[g].peers) && ServicesIdle(gs[g].services)
  }

  predicate PeersIdle(peers: map<Prefix, Peer>) {
    forall p :: p in peers && !peers[p].Has(PIF_DISABLED) ==>
      !peers[p].Has(PIF_ADD_PENDING) && !peers[p].Has(PIF_DEL_PENDING)
  }

  predicate ServicesIdle(m: Monitor) {
    forall p :: p in m && !m[p].disabled ==> PhaseOf(m[p].entries) == Idle
  }

  // `g'` is the group `g` after a commit: disabled entries are as they were (or gone), the
  // enabled services have nothing left to do, and no service claims its prefix that did not before.
  ghost predicate GroupApplied(g: RouterGroup, g': RouterGroup) {
    && g'.peers == PeersApplied(g.peers)
    && MonitorOk(g'.services)
    && forall p :: p in g'.services ==>
         && p in g.services && g'.services[p].disabled == g.services[p].disabled
         && (!g'.services[p].disabled ==> PhaseOf(g'.services[p].entries) == Idle)
         && (Live(g'.services[p]) ==> Live(g.services[p]))
  }

  lemma AppliedIsIdle(g: Group, best: Option<Addr>, found: Option<string>)
    requires !g.disabled && Applied(g, best, found).Some?
    ensures PhaseOf(Applied(g, best, found).value.entries) == Idle
  {
    var r := Applied(g, best, found).value.entries;
    if PhaseOf(g.entries) != Idle {
      forall e | e in r ensures !e.pendingAdd && !e.pendingDel {
        var i :| 0 <= i < |r| && r[i] == e;
      }
    }
  }

  lemma AppliedWasLive(g: Group, best: Option<Addr>, found: Option<string>)
    requires GroupOk(g) && Applied(g, best, found).Some?
    ensures Live(Applied(g, best, found).value) ==> Live(g)
  {
  }

  lemma PeersAppliedIdle(peers: map<Prefix, Peer>)
    ensures PeersIdle(PeersApplied(peers))
  {
    hide HasFlag;
    FlagBits(PIF_NONE, PIF_DISABLED, PIF_ADD_PENDING);
    FlagBits(PIF_NONE, PIF_DISABLED, PIF_DEL_PENDING);
  }

  lemma ServicesApplied(g: RouterGroup, answers: Answers, best: Option<Addr>, id: int)
    requires MonitorOk(g.services)
    ensures GroupApplied(g, RouterGroup(PeersApplied(g.peers), AppliedAll(g.services, answers, best), id))
  {
    var m' := AppliedAll(g.services, answers, best);
    forall p | p in m'
      ensures GroupOk(m'[p]) && m'[p].disabled == g.services[p].disabled
      ensures !m'[p].disabled ==> PhaseOf(m'[p].entries) == Idle
      ensures Live(m'[p]) ==> Live(g.services[p])
    {
      assert AppliedAt(g.services, answers, p, best) == Some(m'[p]);
      AppliedKeeps(g.services[p], best, Answer(answers, p));
      AppliedWasLive(g.services[p], best, Answer(answers, p));
      if !g.services[p].disabled {
        AppliedIsIdle(g.services[p], best, Answer(answers, p));
      }
    }
  }

  // The groups after applyChanges: all are committed, and those without peers are gone. `answers` are those of the
  // route searches, group by group.
  function Committed(gs: Groups, answers: map<int, Answers>, best: int -> SelectedRoute): Groups {
    map g | g in gs && PeersApplied(gs[g].peers) != map[] :: GroupCommitted(gs[g], AnswersOf(answers, g), best(g))
  }

  function GroupCommitted(g: RouterGroup, answers: Answers, best: SelectedRoute): RouterGroup {
    RouterGroup(PeersApplied(g.peers), AppliedAll(g.services, answers, best.ip), best.id)
  }

  function AnswersOf(answers: map<int, Answers>, g: int): Answers {
    if g in answers then answers[g] else map[]
  }

  ghost predicate AllApplied(was: Groups, gs: Groups) {
    && gs.Keys <= was.Keys
    && forall g :: g in was ==>
         if PeersApplied(was[g].peers) == map[] then g !in gs else g in gs && GroupApplied(was[g], gs[g])
  }

  lemma CommittedApplied(gs: Groups, answers: map<int, Answers>, best: int -> SelectedRoute)
    requires GroupsOk(gs)
    ensures AllApplied(gs, Committed(gs, answers, best))
  {
    hide GroupApplied;
    forall g | g in gs && PeersApplied(gs[g].peers) != map[]
      ensures GroupApplied(gs[g], GroupCommitted(gs[g], AnswersOf(answers, g), best(g)))
    {
      ServicesApplied(gs[g], AnswersOf(answers, g), best(g).ip, best(g).id);
    }
  }

  /** A commit disables nothing, and leaves nothing to do. */
  lemma NothingDisabled(was: Groups, gs: Groups)
    requires AllApplied(was, gs)
    ensures GroupsOk(gs) && NothingPending(gs)
    ensures DisabledEntries(gs) <= DisabledEntries(was)
  {
    hide HasFlag, WellFormed;
    forall e | IsDisabled(gs, e) ensures IsDisabled(was, e) {
      assert GroupApplied(was[e.gid], gs[e.gid]);
      if e.PeerAt? {
        FlagBits(PIF_NONE, PIF_DISABLED, PIF_DISABLED);
      }
    }
    forall g | g in gs ensures PeersIdle(gs[g].peers) && ServicesIdle(gs[g].services) {
      assert GroupApplied(was[g], gs[g]);
      PeersAppliedIdle(was[g].peers);
    }
  }

  /** A pass that resolves nothing leaves nothing to commit, if that was so before. */
  lemma NothingResolved(was: Groups, gs: Groups)
    requires OnlyEnabled(was, gs) && DisabledEntries(gs) == DisabledEntries(was) && NothingPending(was)
    ensures NothingPending(gs)
  {
    hide HasFlag, WithoutFlag, DisabledEntries;
    forall e ensures IsDisabled(gs, e) <==> IsDisabled(was, e) {
      assert IsDisabled(gs, e) <==> e in DisabledEntries(gs);
      assert IsDisabled(was, e) <==> e in DisabledEntries(was);
    }
    forall g, p | g in gs && p in gs[g].peers && !gs[g].peers[p].Has(PIF_DISABLED)
      ensures !gs[g].peers[p].Has(PIF_ADD_PENDING) && !gs[g].peers[p].Has(PIF_DEL_PENDING)
    {
      assert !IsDisabled(gs, PeerAt(g, p)) && GroupEnabled(was[g], gs[g]);
      assert !IsDisabled(was, PeerAt(g, p)) && PeersIdle(was[g].peers);
      FlagBits(was[g].peers[p].flags, PIF_DISABLED, PIF_ADD_PENDING);
      FlagBits(was[g].peers[p].flags, PIF_DISABLED, PIF_DEL_PENDING);
    }
    forall g, p | g in gs && p in gs[g].services && !gs[g].services[p].disabled
      ensures PhaseOf(gs[g].services[p].entries) == Idle
    {
      assert !IsDisabled(gs, ServiceAt(g, p)) && GroupEnabled(was[g], gs[g]);
      assert !IsDisabled(was, ServiceAt(g, p)) && ServicesIdle(was[g].services);
    }
  }

  // ---- The kernel after applyChanges ---------------------------------------------------

  function Destinations(g: RouterGroup): set<Prefix> {
    g.peers.Keys + g.services.Keys
  }

  function AllDestinations(gs: Groups): set<Prefix> {
    set g, p | g in gs && p in Destinations(gs[g]) :: p
  }

  // The commit of the group does not write the route.
  predicate Untouched(g: RouterGroup, q: Prefix) {
    && (q in g.peers ==> g.peers[q].Has(PIF_DISABLED))
    && (q in g.services ==> g.services[q].disabled)
  }

  // The destination is one of the group, and no other group writes its route.
  ghost predicate SoleWriter(gs: Groups, g: int, q: Prefix) {
    g in gs && q in Destinations(gs[g]) && forall h :: h in gs && h != g ==> Untouched(gs[h], q)
  }

  // The route of a destination that one group alone writes, when all destinations are alone.
  ghost predicate RoutesCommitted(k: Kernel, k': Kernel, gs: Groups, answers: map<int, Answers>, best: int -> SelectedRoute) {
    && k'.links == k.links
    && (forall q :: (forall g :: g in gs ==> Untouched(gs[g], q)) ==> Lookup(k'.table, q) == Lookup(k.table, q))
    && (Alone(k.table.Keys, AllDestinations(gs)) ==>
          forall g, q :: SoleWriter(gs, g, q) ==> RouteCommitted(k, k', gs, answers, best, g, q))
  }

  // First the peers of the group are committed, then its services, whose search answers with what is there by then.
  ghost predicate RouteCommitted(k: Kernel, k': Kernel, gs: Groups, answers: map<int, Answers>, best: int -> SelectedRoute,
                                 g: int, q: Prefix)
    requires g in gs
  {
    var s := PeerSlot(k, gs[g].peers, q, Found(Lookup(k.table, q)));
    if q in gs[g].services then
      && Answer(AnswersOf(answers, g), q) == Found(s)
      && Lookup(k'.table, q) == AppliedSlot(s, k.links, gs[g].services[q], best(g).ip, Found(s))
    else Lookup(k'.table, q) == s
  }

  lemma Smaller(a: set<EntryId>, b: set<EntryId>)
    requires a <= b
    ensures |a| <= |b|
  {
    assert b == a + (b - a);
  }

  lemma EqualSize(a: set<EntryId>, b: set<EntryId>)
    requires a <= b && |a| == |b|
    ensures a == b
  {
    assert b == a + (b - a);
  }

  lemma FlushedAll(was: Groups, gs: Groups)
    requires gs.Keys == was.Keys && forall g :: g in was ==> gs[g] == GroupFlushed(was[g])
    ensures gs == AllFlushed(was)
  {
    hide GroupFlushed;
    var r := AllFlushed(was);
    forall g ensures g in gs <==> g in r {
    }
    forall g | g in gs ensures gs[g] == r[g] {
    }
    assert gs == r;
  }

  lemma EmptyGroup(gs: Groups, gid: int, ip: Prefix)
    ensures ClaimedElsewhere(gs[gid := GroupOf(gs, gid)], gid, ip) <==> ClaimedElsewhere(gs, gid, ip)
  {
    var gs' := gs[gid := GroupOf(gs, gid)];
    assert forall h :: h != gid ==> (LiveAt(gs', h, ip) <==> LiveAt(gs, h, ip));
  }

  lemma NothingDone(gs: Groups)
    ensures AllDone(gs, gs.Keys, {})
  {
  }

  lemma KeysOf(gs: Groups, gs': Groups, g: int)
    requires SameKeys(gs, gs')
    ensures gs.Keys == gs'.Keys
    ensures g in gs ==> gs'[g].peers.Keys == gs[g].peers.Keys && gs'[g].services.Keys == gs[g].services.Keys
  {
  }

  lemma Transitive(a: Groups, b: Groups, c: Groups)
    requires SameKeys(a, b) && SameKeys(b, c)
    ensures SameKeys(a, c)
  {
  }

  // ---- The loop of applyChanges ------------------------------------------------------

  // The groups of `todo` have not been committed yet; see RoutesCommitted.
  ghost predicate CommitUnderway(k: Kernel, k': Kernel, gs: Groups, todo: set<int>, answers: map<int, Answers>,
                                 best: int -> SelectedRoute) {
    && k'.links == k.links
    && (forall q :: (forall g :: g in gs && g !in todo ==> Untouched(gs[g], q)) ==> Lookup(k'.table, q) == Lookup(k.table, q))
    && (forall q :: Lookup(k'.table, q) == Lookup(k.table, q) || q in AllDestinations(gs))
    && (Alone(k.table.Keys, AllDestinations(gs)) ==>
          forall g, q :: SoleWriter(gs, g, q) && g !in todo ==> RouteCommitted(k, k', gs, answers, best, g, q))
  }

  lemma CommittedIs(was: Groups, gs: Groups, dropped: set<int>, answers: map<int, Answers>, best: int -> SelectedRoute)
    requires gs.Keys == was.Keys == answers.Keys
    requires forall g :: g in was ==> gs[g] == GroupCommitted(was[g], answers[g], best(g))
    requires forall g :: g in was ==> (g in dropped <==> PeersApplied(was[g].peers) == map[])
    ensures gs - dropped == Committed(was, answers, best)
  {
    hide PeersApplied, GroupCommitted;
    var r := Committed(was, answers, best);
    forall g ensures g in gs - dropped <==> g in r {
    }
    forall g | g in r ensures (gs - dropped)[g] == r[g] {
    }
  }

  lemma CommitBegins(k: Kernel, gs: Groups, best: int -> SelectedRoute)
    ensures CommitUnderway(k, k, gs, gs.Keys, map[], best)
  {
  }

  // What is found of a group that is still to come makes no difference.
  lemma CommitRetold(k: Kernel, k': Kernel, gs: Groups, todo: set<int>, answers: map<int, Answers>,
                     best: int -> SelectedRoute, best': int -> SelectedRoute)
    requires CommitUnderway(k, k', gs, todo, answers, best)
    requires forall g :: g in gs && g !in todo ==> best'(g) == best(g)
    ensures CommitUnderway(k, k', gs, todo, answers, best')
  {
    hide HasFlag, AppliedSlot, PeerSlot, Alone, AllDestinations, Lookup;
    if Alone(k.table.Keys, AllDestinations(gs)) {
      forall g, q | SoleWriter(gs, g, q) && g !in todo ensures RouteCommitted(k, k', gs, answers, best', g, q) {
        assert RouteCommitted(k, k', gs, answers, best, g, q);
      }
    }
  }

  lemma CommitFinishes(k: Kernel, k': Kernel, gs: Groups, answers: map<int, Answers>, best: int -> SelectedRoute)
    requires CommitUnderway(k, k', gs, {}, answers, best)
    ensures RoutesCommitted(k, k', gs, answers, best)
  {
  }

  // The commit of one group leaves alone what it does not touch, and keeps to its destinations.
  lemma GroupWrites(k0: Kernel, k1: Kernel, k2: Kernel, g: RouterGroup, best: Option<Addr>, a: Answers, b: Answers, q: Prefix)
    requires PeersCommitted(k0, k1, g.peers, a) && KernelApplied(k1, k2, g.services, best, b)
    ensures k2.links == k0.links && AreAnswers(k0.table, g.peers.Keys, a) && AreAnswers(k1.table, g.services.Keys, b)
    ensures Untouched(g, q) ==> Lookup(k2.table, q) == Lookup(k0.table, q)
    ensures q !in Destinations(g) ==> Lookup(k1.table, q) == Lookup(k2.table, q) == Lookup(k0.table, q)
    ensures Lookup(k1.table, q) == PeerSlot(k0, g.peers, q, Answer(a, q))
    ensures Lookup(k2.table, q) == if q in g.services then AppliedSlot(Lookup(k1.table, q), k0.links, g.services[q], best, Answer(b, q))
                                   else Lookup(k1.table, q)
  {
    hide AreAnswers, HasFlag, Lookup, AddSlot, DelSlot;
  }

  // The search for a destination of the group answers with the interface of its own route.
  lemma GroupAnswer(k: Kernel, k0: Kernel, gs: Groups, gid: int, own: set<Prefix>, a: Answers, q: Prefix)
    requires Alone(k.table.Keys, AllDestinations(gs)) && gid in gs && q in own && own <= Destinations(gs[gid])
    requires forall x :: Lookup(k0.table, x) == Lookup(k.table, x) || x in AllDestinations(gs)
    requires AreAnswers(k0.table, own, a)
    ensures Answer(a, q) == Found(Lookup(k0.table, q))
  {
    forall p, x | p in own && x in k0.table.Keys + own && p.addr == x.addr ensures p == x {
      assert p in Destinations(gs[gid]) && p in AllDestinations(gs);
      if x !in AllDestinations(gs) {
        assert x !in Destinations(gs[gid]);
        assert Lookup(k0.table, x) == Lookup(k.table, x);
      }
    }
    AnswerAlone(k0.table, own, q, a[q]);
  }

  // What the commit of a group makes of a route that the groups before have not written.
  lemma GroupRoutes(k: Kernel, k0: Kernel, k1: Kernel, k2: Kernel, gs: Groups, gid: int, answers: map<int, Answers>,
                    best: int -> SelectedRoute, a: Answers, b: Answers, q: Prefix)
    requires Alone(k.table.Keys, AllDestinations(gs)) && gid in gs && q in Destinations(gs[gid])
    requires forall x :: Lookup(k0.table, x) == Lookup(k.table, x) || x in AllDestinations(gs)
    requires k0.links == k.links && Lookup(k0.table, q) == Lookup(k.table, q)
    requires PeersCommitted(k0, k1, gs[gid].peers, a) && KernelApplied(k1, k2, gs[gid].services, best(gid).ip, b)
    ensures RouteCommitted(k, k2, gs, answers[gid := b], best, gid, q)
  {
    hide HasFlag, Lookup, Alone, AreAnswers, AppliedSlot, PeerSlot, AllDestinations, PeersCommitted, KernelApplied;
    var g := gs[gid];
    GroupWrites(k0, k1, k2, g, best(gid).ip, a, b, q);
    SlotOf(k, k0, g.peers, q, Answer(a, q));
    if q in g.peers {
      GroupAnswer(k, k0, gs, gid, g.peers.Keys, a, q);
    } else {
      Unlisted(k, g.peers, q, Answer(a, q));
      Unlisted(k, g.peers, q, Found(Lookup(k.table, q)));
    }
    if q in g.services {
      forall x ensures Lookup(k1.table, x) == Lookup(k.table, x) || x in AllDestinations(gs) {
        GroupWrites(k0, k1, k2, g, best(gid).ip, a, b, x);
        if x in Destinations(g) {
          InAllDestinations(gs, gid, x);
        }
      }
      GroupAnswer(k, k1, gs, gid, g.services.Keys, b, q);
    }
  }

  lemma InAllDestinations(gs: Groups, gid: int, q: Prefix)
    requires gid in gs && q in Destinations(gs[gid])
    ensures q in AllDestinations(gs)
  {
  }

  lemma SlotOf(k: Kernel, k0: Kernel, peers: map<Prefix, Peer>, q: Prefix, found: Option<string>)
    requires k0.links == k.links && Lookup(k0.table, q) == Lookup(k.table, q)
    ensures PeerSlot(k0, peers, q, found) == PeerSlot(k, peers, q, found)
  {
    hide HasFlag, Lookup;
  }

  lemma Unlisted(k: Kernel, peers: map<Prefix, Peer>, q: Prefix, found: Option<string>)
    requires q !in peers
    ensures PeerSlot(k, peers, q, found) == Lookup(k.table, q)
  {
  }

  lemma CommitProceeds(k: Kernel, k0: Kernel, k1: Kernel, k2: Kernel, gs: Groups, todo: set<int>, answers: map<int, Answers>,
                       best: int -> SelectedRoute, gid: int, a: Answers, b: Answers)
    requires CommitUnderway(k, k0, gs, todo, answers, best) && gid in todo && todo <= gs.Keys && answers.Keys == gs.Keys - todo
    requires PeersCommitted(k0, k1, gs[gid].peers, a) && KernelApplied(k1, k2, gs[gid].services, best(gid).ip, b)
    ensures CommitUnderway(k, k2, gs, todo - {gid}, answers[gid := b], best)
  {
    hide PeersCommitted, HasFlag, AppliedSlot, Lookup, Alone, AreAnswers;
    GroupWrites(k0, k1, k2, gs[gid], best(gid).ip, a, b, Prefix(0, 0));
    assert k2.links == k.links;
    forall q
      ensures Untouched(gs[gid], q) ==> Lookup(k2.table, q) == Lookup(k0.table, q)
      ensures q !in Destinations(gs[gid]) ==> Lookup(k2.table, q) == Lookup(k0.table, q)
    {
      GroupWrites(k0, k1, k2, gs[gid], best(gid).ip, a, b, q);
    }
    forall q | forall g :: g in gs && g !in todo - {gid} ==> Untouched(gs[g], q)
      ensures Lookup(k2.table, q) == Lookup(k.table, q)
    {
      assert Untouched(gs[gid], q) && forall g :: g in gs && g !in todo ==> Untouched(gs[g], q);
    }
    forall q ensures Lookup(k2.table, q) == Lookup(k.table, q) || q in AllDestinations(gs) {
      assert q in Destinations(gs[gid]) ==> q in AllDestinations(gs);
    }
    if Alone(k.table.Keys, AllDestinations(gs)) {
      forall g, q | SoleWriter(gs, g, q) && g !in todo - {gid}
        ensures RouteCommitted(k, k2, gs, answers[gid := b], best, g, q)
      {
        if g == gid {
          assert forall h :: h in gs && h !in todo ==> Untouched(gs[h], q);
          GroupRoutes(k, k0, k1, k2, gs, gid, answers, best, a, b, q);
        } else {
          assert Untouched(gs[gid], q);
          assert RouteCommitted(k, k0, gs, answers, best, g, q);
        }
      }
    }
  }

  class Router {
    var groups: Groups
    var kernel: Kernel

    constructor (kernel: Kernel)
      ensures groups == map[] && this.kernel == kernel
    {
      groups, this.kernel := map[], kernel;
    }

    method HasIpConflict(addr: Prefix, groupID: int) returns (b: bool)
      ensures b <==> ClaimedElsewhere(groups, groupID, addr)
    {
      var todo: set<int> := groups.Keys;
      while todo != {}
        invariant todo <= groups.Keys
        invariant forall g :: g in groups && g !in todo && g != groupID ==> !LiveAt(groups, g, addr)
      {
        var gid := Next(todo);
        HasPeerNever(groups[gid].peers, addr);
        if HasPeer(groups[gid].peers, addr) || HasAddress(groups[gid].services, addr) {
          if groupID != gid {
            assert LiveAt(groups, gid, addr);
            return true;
          }
        }
        todo := todo - {gid};
      }
      b := false;
    }

    method FindOrCreate(gid: int)
      modifies this`groups
      ensures groups == old(groups)[gid := GroupOf(old(groups), gid)]
    {
      if gid !in groups {
        groups := groups[gid := RouterGroup(map[], map[], 0)];
      }
    }

    method ServiceAdd(path: NetworkPath, ip: Prefix)
      modifies this`groups
      ensures groups == ServiceAdded(old(groups), path, ip)
    {
      var isIPconflict := HasIpConflict(ip, path.groupID);
      FindOrCreate(path.groupID);
      var g := groups[path.groupID];
      groups := groups[path.groupID := g.(services := AddedTo(g.services, path, ip, isIPconflict))];
    }

    // Only a prefix that a known group does not have is an error.
    method ServiceDel(path: NetworkPath, ip: Prefix) returns (ok: bool)
      modifies this`groups
      ensures groups == ServiceDeleted(old(groups), path, ip)
      ensures ok <==> path.groupID in old(groups) ==> ip in old(groups)[path.groupID].services
    {
      ok := true;
      if path.groupID in groups {
        var g := groups[path.groupID];
        ok := ip in g.services;
        groups := groups[path.groupID := g.(services := MarkedIn(g.services, path, ip))];
      }
    }

    method PeerAdd(path: NetworkPath, dest: Prefix)
      modifies this`groups
      ensures groups == PeerAdded(old(groups), path, dest)
    {
      FindOrCreate(path.groupID);
      EmptyGroup(old(groups), path.groupID, dest);
      var isIPconflict := HasIpConflict(dest, path.groupID);
      var g := groups[path.groupID];
      groups := groups[path.groupID := g.(peers := AddedPeer(g.peers, path.ifname, dest, isIPconflict))];
    }

    method PeerDel(path: NetworkPath, dest: Prefix)
      modifies this`groups
      ensures groups == PeerDeleted(old(groups), path, dest)
    {
      if path.groupID in groups && dest in groups[path.groupID].peers {
        var g := groups[path.groupID];
        groups := groups[path.groupID := g.(peers := g.peers[dest := MarkedPeer(g.peers[dest])])];
      }
    }

    method Flush()
      modifies this`groups
      ensures groups == AllFlushed(old(groups))
    {
      hide GroupFlushed;
      ghost var was := groups;
      var todo: set<int> := groups.Keys;
      while todo != {}
        invariant todo <= groups.Keys == was.Keys
        invariant forall g :: g in was ==> groups[g] == if g in todo then was[g] else GroupFlushed(was[g])
      {
        var gid := Next(todo);
        groups := groups[gid := GroupFlushed(groups[gid])];
        todo := todo - {gid};
      }
      FlushedAll(was, groups);
    }

    method ResolvePeer(gid: int, ip: Prefix) returns (n: nat)
      requires gid in groups && ip in groups[gid].peers
      modifies this`groups
      ensures EntryResolved(old(groups), groups, PeerAt(gid, ip), n) && SameKeys(old(groups), groups)
    {
      hide Enabled;
      n := 0;
      if groups[gid].peers[ip].Has(PIF_DISABLED) {
        var conflict := HasIpConflict(ip, gid);
        if !conflict {
          EnabledEntries(groups, PeerAt(gid, ip));
          groups := Enabled(groups, PeerAt(gid, ip));
          n := 1;
        }
      }
    }

    method ResolveService(gid: int, ip: Prefix) returns (n: nat)
      requires gid in groups && ip in groups[gid].services
      modifies this`groups
      ensures EntryResolved(old(groups), groups, ServiceAt(gid, ip), n) && SameKeys(old(groups), groups)
    {
      hide Enabled;
      n := 0;
      if groups[gid].services[ip].disabled {
        var conflict := HasIpConflict(ip, gid);
        if !conflict {
          EnabledEntries(groups, ServiceAt(gid, ip));
          groups := Enabled(groups, ServiceAt(gid, ip));
          n := 1;
        }
      }
    }

    // PeerMonitor.ResolveIpConflict.
    method ResolvePeers(gid: int) returns (count: nat, ghost t: seq<Visit>)
      requires gid in groups
      modifies this`groups
      ensures IsTrail(old(groups), t, groups) && SameKeys(old(groups), groups) && count == Total(t)
      ensures forall p :: p in groups[gid].peers ==> PeerAt(gid, p) in Treated(t)
    {
      ghost var was := groups;
      count, t := 0, [];
      hide IsTrail, EntryResolved, SameKeys, Total, Treated;
      TrailStarts(was);
      Same(was);
      var todo := groups[gid].peers.Keys;
      while todo != {}
        invariant IsTrail(was, t, groups) && SameKeys(was, groups) && count == Total(t) && todo <= was[gid].peers.Keys
        invariant forall p :: p in was[gid].peers && p !in todo ==> PeerAt(gid, p) in Treated(t)
      {
        var ip :| ip in todo;
        ghost var gs := groups;
        KeysOf(was, gs, gid);
        var n := ResolvePeer(gid, ip);
        TrailNext(was, t, gs, PeerAt(gid, ip), groups, n);
        Transitive(was, gs, groups);
        count, t := count + n, t + [Visit(PeerAt(gid, ip), gs, groups, n)];
        todo := todo - {ip};
      }
      KeysOf(was, groups, gid);
    }

    // ServiceMonitor.ResolveIpConflict on values.
    method ResolveServices(gid: int) returns (count: nat, ghost t: seq<Visit>)
      requires gid in groups
      modifies this`groups
      ensures IsTrail(old(groups), t, groups) && SameKeys(old(groups), groups) && count == Total(t)
      ensures forall p :: p in groups[gid].services ==> ServiceAt(gid, p) in Treated(t)
    {
      ghost var was := groups;
      count, t := 0, [];
      hide IsTrail, EntryResolved, SameKeys, Total, Treated;
      TrailStarts(was);
      Same(was);
      var todo := groups[gid].services.Keys;
      while todo != {}
        invariant IsTrail(was, t, groups) && SameKeys(was, groups) && count == Total(t) && todo <= was[gid].services.Keys
        invariant forall p :: p in was[gid].services && p !in todo ==> ServiceAt(gid, p) in Treated(t)
      {
        var ip :| ip in todo;
        ghost var gs := groups;
        KeysOf(was, gs, gid);
        var n := ResolveService(gid, ip);
        TrailNext(was, t, gs, ServiceAt(gid, ip), groups, n);
        Transitive(was, gs, groups);
        count, t := count + n, t + [Visit(ServiceAt(gid, ip), gs, groups, n)];
        todo := todo - {ip};
      }
      KeysOf(was, groups, gid);
    }

    // One pass, in any order. No prefix gets a second live claimant, every entry that stays disabled
    // has a live claimant in another group, and the count is exactly the drop in disabled entries.
    method ResolveIpConflict() returns (count: nat)
      requires GroupsOk(groups)
      modifies this`groups
      ensures GroupsOk(groups) && OnlyEnabled(old(groups), groups) && NoSecondClaim(old(groups), groups)
      ensures forall e :: Justified(groups, e)
      ensures DisabledEntries(groups) <= DisabledEntries(old(groups))
      ensures count == |DisabledEntries(old(groups))| - |DisabledEntries(groups)|
    {
      ghost var was := groups;
      ghost var t: seq<Visit> := [];
      hide IsTrail, Total, Treated, Resolving, GroupsOk, OnlyEnabled, NoSecondClaim, Justified, AllDone, SameKeys, DisabledEntries;
      TrailStarts(was);
      NothingDone(was);
      count := 0;
      var todo: set<int> := groups.Keys;
      while todo != {}
        invariant IsTrail(was, t, groups) && count == Total(t) && AllDone(groups, todo, Treated(t)) && todo <= groups.Keys
      {
        var gid := Next(todo);
        ghost var gs := groups;
        Same(gs);
        ghost var u, v;
        var m, n;
        m, u := ResolvePeers(gid);
        ghost var gs' := groups;
        KeysOf(gs, gs', gid);
        n, v := ResolveServices(gid);
        KeysOf(gs', groups, gid);
        Transitive(gs, gs', groups);
        TrailAppend(gs, u, gs', v, groups);
        TrailAppend(was, t, gs, u + v, groups);
        DoneNext(gs, groups, todo, Treated(t), Treated(t + (u + v)), gid);
        count, t := count + m + n, t + (u + v);
        todo := todo - {gid};
      }
      TrailResolves(was, t, groups);
      ResolvingEnds(was, groups, count, Treated(t));
    }

    // PeerMonitor.Apply: the peers' own routes, and their flags.
    method ApplyPeers(gid: int) returns (ghost answers: Answers)
      requires gid in groups
      modifies this`groups, this`kernel
      ensures groups == old(groups)[gid := old(groups)[gid].(peers := PeersApplied(old(groups)[gid].peers))]
      ensures PeersCommitted(old(kernel), kernel, old(groups)[gid].peers, answers)
    {
      hide Underway, Lookup, Put, IsSearch, Shadowed, AreAnswers, HasFlag;
      ghost var k := kernel;
      var peers := groups[gid].peers;
      ghost var after := (q: Prefix, found: Option<string>) => PeerSlot(k, peers, q, found);
      answers := map[];
      var now := peers;
      var deleteIPs: set<Prefix> := {};
      var todo := peers.Keys;
      NothingVisited(k, peers.Keys, after);
      while todo != {}
        invariant todo <= peers.Keys && now.Keys == peers.Keys && deleteIPs <= peers.Keys - todo
        invariant forall p :: p in todo ==> now[p] == peers[p]
        invariant forall p :: p in peers && p !in todo ==>
                    PeerApplied(peers[p]) == if p in deleteIPs then None else Some(now[p])
        invariant groups == old(groups)
        invariant Underway(k, kernel, peers.Keys, todo, answers, after)
      {
        var ip :| ip in todo;
        var peer := peers[ip];
        ghost var found := SearchAnswers(kernel.table, ip);
        SearchShadowed(kernel.table, ip, found);
        Visiting(k, kernel, peers.Keys, todo, answers, after, ip, found);
        var ok;
        if peer.Has(PIF_DISABLED) {
          if peer.Has(PIF_DEL_PENDING) {
            deleteIPs := deleteIPs + {ip};
          }
        } else if peer.Has(PIF_ADD_PENDING) {
          kernel, ok := RouteAdd(kernel, peer.ifname, None, ip);
          now := now[ip := peer.(flags := PIF_NONE)];
        } else if peer.Has(PIF_DEL_PENDING) {
          kernel, ok := RouteDel(kernel, peer.ifname, ip);
          now := now[ip := peer.(flags := PIF_NONE)];
          deleteIPs := deleteIPs + {ip};
        }
        answers := answers[ip := found];
        todo := todo - {ip};
      }
      AllVisited(k, kernel, peers.Keys, answers, after);
      assert now - deleteIPs == PeersApplied(peers);
      groups := groups[gid := groups[gid].(peers := now - deleteIPs)];
    }

    // ServiceMonitor.Apply on values, with the contract that ServiceMon proves of the object.
    method ApplyServices(gid: int, best: SelectedRoute) returns (ghost answers: Answers)
      requires gid in groups
      modifies this`groups, this`kernel
      ensures groups == old(groups)[gid := RouterGroup(old(groups)[gid].peers,
                                                       AppliedAll(old(groups)[gid].services, answers, best.ip), best.id)]
      ensures KernelApplied(old(kernel), kernel, old(groups)[gid].services, best.ip, answers)
    {
      hide Applied, AppliedSlot, Lookup, Put, IsSearch, AppliedAll, StatusOf, Committing, KernelApplied;
      ghost var k, statuses := kernel, [];
      var was := groups[gid].services;
      ghost var after := (q: Prefix, found: Option<string>) => SlotApplied(k, was, best.ip, q, found);
      answers := map[];
      var now := was;
      var deleteIPs: set<Prefix> := {};
      var todo := was.Keys;
      CommitStarts(k, was, best.ip, after);
      while todo != {}
        invariant todo <= was.Keys && now.Keys == was.Keys && groups == old(groups)
        invariant Committing(k, kernel, was, now, deleteIPs, todo, best.ip, answers, statuses, after)
      {
        var ip :| ip in todo;
        var found := RouteSearch(kernel, ip);
        var g := Applied(now[ip], best.ip, found);
        ghost var status := StatusOf(now[ip], ip, kernel.links, found);
        CommitContinues(k, kernel, was, now, deleteIPs, todo, best.ip, answers, statuses, after, ip, found,
                        if g.Some? then g.value else now[ip], g.Some?, status);
        kernel := Write(kernel, ip, AppliedSlot(Lookup(kernel.table, ip), kernel.links, now[ip], best.ip, found));
        now := now[ip := if g.Some? then g.value else now[ip]];
        if g.None? {
          deleteIPs := deleteIPs + {ip};
        }
        answers := answers[ip := found];
        statuses := if status.Some? then statuses + [status.value] else statuses;
        todo := todo - {ip};
      }
      CommitEnds(k, kernel, was, now, deleteIPs, best.ip, answers, statuses, after);
      groups := groups[gid := RouterGroup(groups[gid].peers, now - deleteIPs, best.id)];
    }

    method ApplyChanges(best: int -> SelectedRoute) returns (ghost answers: map<int, Answers>)
      modifies this`groups, this`kernel
      ensures groups == Committed(old(groups), answers, best)
      ensures RoutesCommitted(old(kernel), kernel, old(groups), answers, best)
    {
      hide PeersApplied, AppliedAll, CommitUnderway, RoutesCommitted, PeersCommitted, KernelApplied, Committed;
      ghost var was, k := groups, kernel;
      answers := map[];
      var deleteGIDs: set<int> := {};
      var todo: set<int> := groups.Keys;
      CommitBegins(k, was, best);
      while todo != {}
        invariant groups.Keys == was.Keys && todo <= was.Keys && deleteGIDs <= was.Keys - todo && answers.Keys == was.Keys - todo
        invariant forall g :: g in todo ==> groups[g] == was[g]
        invariant forall g :: g in was && g !in todo ==> groups[g] == GroupCommitted(was[g], answers[g], best(g))
        invariant forall g :: g in was && g !in todo ==> (g in deleteGIDs <==> PeersApplied(was[g].peers) == map[])
        invariant CommitUnderway(k, kernel, was, todo, answers, best)
      {
        var gid := Next(todo);
        ghost var k0 := kernel;
        ghost var a := ApplyPeers(gid);
        ghost var k1 := kernel;
        ghost var b := ApplyServices(gid, best(gid));
        CommitProceeds(k, k0, k1, kernel, was, todo, answers, best, gid, a, b);
        answers := answers[gid := b];
        if groups[gid].peers == map[] {
          deleteGIDs := deleteGIDs + {gid};
        }
        todo := todo - {gid};
      }
      CommitFinishes(k, kernel, was, answers, best);
      CommittedIs(was, groups, deleteGIDs, answers, best);
      groups := groups - deleteGIDs;
    }

    // Commits and resolves until nothing is resolved any more, at most `cap` times. Every further round
    // has resolved a conflict for good: the loop ends with nothing left to do, or with `cap` of them gone.
    method ApplyBounded(cap: nat, best: (nat, int) -> SelectedRoute)
      requires GroupsOk(groups) && cap > 0
      modifies this`groups, this`kernel
      ensures GroupsOk(groups)
      ensures || (NothingPending(groups) && forall e :: Justified(groups, e))
              || |DisabledEntries(groups)| + cap <= |DisabledEntries(old(groups))|
    {
      hide GroupsOk, Committed, AllApplied, RoutesCommitted, DisabledEntries, OnlyEnabled, NoSecondClaim, NothingPending, Justified;
      var iteration := cap;
      while iteration > 0
        invariant GroupsOk(groups) && iteration <= cap
        invariant |DisabledEntries(groups)| + (cap - iteration) <= |DisabledEntries(old(groups))|
      {
        ghost var before := groups;
        var round := iteration;
        ghost var answers := ApplyChanges(g => best(round, g));
        ghost var applied := groups;
        CommittedApplied(before, answers, g => best(round, g));
        NothingDisabled(before, applied);
        Smaller(DisabledEntries(applied), DisabledEntries(before));
        var count := ResolveIpConflict();
        if count == 0 {
          EqualSize(DisabledEntries(groups), DisabledEntries(applied));
          NothingResolved(applied, groups);
          return;
        }
        iteration := iteration - 1;
      }
    }

    // The router's own bound is three rounds; up to two conflicts are therefore always settled.
    method Apply(best: (nat, int) -> SelectedRoute)
      requires GroupsOk(groups)
      modifies this`groups, this`kernel
      ensures GroupsOk(groups)
      ensures |DisabledEntries(old(groups))| < 3 ==> NothingPending(groups) && forall e :: Justified(groups, e)
    {
      ApplyBounded(3, best);
    }
  }
}
