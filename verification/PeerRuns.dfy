/**
 The own routes of the peers of a group (agent/router/peermon/apply.go) over whole runs: what a
 commit does to each, and when a peer that has been committed really has its route.
 */
module PeerRuns {
  import opened Net
  import opened PeerFlags
  import opened Router

  // ---- One commit ----------------------------------------------------------------------

  function OwnRoute(peer: Peer): Route {
    Route(peer.ifname, None)
  }

  predicate Enabled(peer: Peer) {
    !peer.Has(PIF_DISABLED)
  }

  predicate ToAdd(peer: Peer) {
    Enabled(peer) && peer.Has(PIF_ADD_PENDING)
  }

  predicate ToDelete(peer: Peer) {
    Enabled(peer) && !peer.Has(PIF_ADD_PENDING) && peer.Has(PIF_DEL_PENDING)
  }

  /** A peer to be added gets its route if the address is free and the interface exists, and whatever is there otherwise
      stays; one to be deleted loses the route if it is on its interface; no other route changes. */
  lemma PeerRouteCommitted(k: Kernel, k': Kernel, peers: map<Prefix, Peer>, answers: Answers, p: Prefix)
    requires PeersCommitted(k, k', peers, answers) && Alone(k.table.Keys, peers.Keys)
    ensures var s, s' := Lookup(k.table, p), Lookup(k'.table, p);
            if p in peers && ToAdd(peers[p]) then
              s' == if s.None? && peers[p].ifname in k.links then Some(OwnRoute(peers[p])) else s
            else if p in peers && ToDelete(peers[p]) then
              s' == if s.Some? && s.value.ifname == peers[p].ifname && peers[p].ifname in k.links then None else s
            else s' == s
  {
    hide HasFlag, Lookup;
    if p in peers {
      AnswerAlone(k.table, peers.Keys, p, answers[p]);
    }
  }

  // ---- Runs --------------------------------------------------------------------------------

  datatype State = State(peers: map<Prefix, Peer>, kernel: Kernel)

  datatype Op =
    | Add(ifname: string, dest: Prefix, disabled: bool)
    | Del(dest: Prefix)
    | Flush
    | Commit
    | Enable(dest: Prefix)             // its conflict is resolved
    | Foreign(ip: Prefix, slot: Slot)  // somebody else writes a route

  ghost predicate Step(s: State, op: Op, s': State) {
    match op
    case Add(ifname, dest, disabled) => s' == s.(peers := AddedPeer(s.peers, ifname, dest, disabled))
    case Del(dest) => s' == if dest in s.peers then s.(peers := s.peers[dest := MarkedPeer(s.peers[dest])]) else s
    case Flush => s' == s.(peers := map p | p in s.peers :: MarkedPeer(s.peers[p]))
    case Commit =>
      s'.peers == PeersApplied(s.peers) && exists answers :: PeersCommitted(s.kernel, s'.kernel, s.peers, answers)
    case Enable(dest) =>
      s' == if dest in s.peers then s.(peers := s.peers[dest := PeerEnabled(s.peers[dest])]) else s
    case Foreign(ip, slot) => s' == s.(kernel := Write(s.kernel, ip, slot))
  }

  // A peer that waits for no addition has its route. A disabled one waits for one.
  ghost predicate PeerHolds(peer: Peer, s: Slot) {
    !peer.Has(PIF_ADD_PENDING) ==> Enabled(peer) && s == Some(OwnRoute(peer))
  }

  ghost predicate Holds(s: State) {
    forall p :: p in s.peers ==> PeerHolds(s.peers[p], Lookup(s.kernel.table, p))
  }

  // The commit can give the peer its route, or it is there.
  ghost predicate Fits(peer: Peer, s: Slot, links: set<string>) {
    s == Some(OwnRoute(peer)) || (s.None? && peer.ifname in links)
  }

  // Nobody else writes the route of a peer that has been committed, and at a commit each peer to be added fits.
  ghost predicate Undisturbed(s: State, op: Op) {
    match op
    case Commit =>
      && Alone(s.kernel.table.Keys, s.peers.Keys)
      && forall p :: p in s.peers && ToAdd(s.peers[p]) ==> Fits(s.peers[p], Lookup(s.kernel.table, p), s.kernel.links)
    case Foreign(ip, _) => ip in s.peers ==> s.peers[ip].Has(PIF_ADD_PENDING)
    case _ => true
  }

  lemma StepHolds(s: State, op: Op, s': State)
    requires Holds(s) && Step(s, op, s') && Undisturbed(s, op)
    ensures Holds(s')
  {
    hide HasFlag, WithFlag, WithoutFlag, AddedFlags, DeletedFlags, Lookup, Put;
    forall p | p in s'.peers ensures PeerHolds(s'.peers[p], Lookup(s'.kernel.table, p)) {
      match op
      case Add(_, dest, disabled) =>
        PendingFlags(if dest in s.peers then s.peers[dest].flags else PIF_NONE, disabled, PIF_ADD_PENDING);
      case Del(_) =>
        MarkedHolds(s.peers[p]);
      case Flush =>
        MarkedHolds(s.peers[p]);
      case Commit =>
        CommittedHolds(s, s', p);
      case Enable(_) =>
        FlagBits(s.peers[p].flags, PIF_DISABLED, PIF_ADD_PENDING);
        FlagBits(s.peers[p].flags, PIF_DISABLED, PIF_DISABLED);
      case Foreign(ip, slot) =>
        PutChanges(s.kernel.table, ip, slot);
    }
  }

  lemma MarkedHolds(peer: Peer)
    ensures MarkedPeer(peer).Has(PIF_ADD_PENDING) == peer.Has(PIF_ADD_PENDING)
    ensures Enabled(MarkedPeer(peer)) == Enabled(peer)
  {
    PendingFlags(peer.flags, false, PIF_ADD_PENDING);
    PendingFlags(peer.flags, false, PIF_DISABLED);
    hide HasFlag, DeletedFlags;
  }

  // After the commit a peer that stays holds its route iff it held it, or had to be added and fits.
  lemma CommittedHolds(s: State, s': State, p: Prefix)
    requires Step(s, Commit, s') && Alone(s.kernel.table.Keys, s.peers.Keys) && p in s.peers
    requires PeerHolds(s.peers[p], Lookup(s.kernel.table, p))
    ensures p in s'.peers ==>
              (PeerHolds(s'.peers[p], Lookup(s'.kernel.table, p)) <==>
               (ToAdd(s.peers[p]) ==> Fits(s.peers[p], Lookup(s.kernel.table, p), s.kernel.links)))
    ensures ToAdd(s.peers[p]) ==> p in s'.peers
  {
    FlagBits(PIF_NONE, PIF_DISABLED, PIF_ADD_PENDING);
    FlagBits(PIF_NONE, PIF_DISABLED, PIF_DISABLED);
    hide HasFlag, Lookup, PeersCommitted;
    var answers :| PeersCommitted(s.kernel, s'.kernel, s.peers, answers);
    PeerRouteCommitted(s.kernel, s'.kernel, s.peers, answers, p);
  }

  /** What is asked of a commit is exact. */
  lemma CommitExact(s: State, s': State)
    requires Holds(s) && Step(s, Commit, s') && Alone(s.kernel.table.Keys, s.peers.Keys)
    ensures Holds(s') <==> Undisturbed(s, Commit)
  {
    hide HasFlag, Fits, PeerHolds, Lookup;
    forall p | p in s.peers ensures p in s'.peers && ToAdd(s.peers[p]) ==>
        (PeerHolds(s'.peers[p], Lookup(s'.kernel.table, p)) <==> Fits(s.peers[p], Lookup(s.kernel.table, p), s.kernel.links))
    {
      CommittedHolds(s, s', p);
    }
    forall p | p in s.peers && ToAdd(s.peers[p]) ensures p in s'.peers {
      CommittedHolds(s, s', p);
    }
    if Undisturbed(s, Commit) {
      StepHolds(s, Commit, s');
    }
  }

  ghost predicate IsRun(states: seq<State>, ops: seq<Op>) {
    && |states| == |ops| + 1 && states[0].peers == map[]
    && forall i :: 0 <= i < |ops| ==> Step(states[i], ops[i], states[i + 1]) && Undisturbed(states[i], ops[i])
  }

  /** In every state of every such run each enabled peer that has nothing to be added has exactly its own route, over its
      own interface; right after a commit that is every enabled peer. */
  lemma {:induction false} RunHolds(states: seq<State>, ops: seq<Op>, n: nat)
    requires IsRun(states, ops) && n <= |ops|
    ensures Holds(states[n])
    ensures n > 0 && ops[n - 1] == Commit ==>
              forall p :: p in states[n].peers && Enabled(states[n].peers[p]) ==>
                Lookup(states[n].kernel.table, p) == Some(OwnRoute(states[n].peers[p]))
  {
    if n > 0 {
      hide Step, Undisturbed, Holds, HasFlag, Lookup;
      RunHolds(states, ops, n - 1);
      StepHolds(states[n - 1], ops[n - 1], states[n]);
      if ops[n - 1] == Commit {
        AllHold(states[n - 1], states[n]);
      }
    }
  }

  lemma AllHold(s: State, s': State)
    requires Step(s, Commit, s') && Holds(s')
    ensures forall p :: p in s'.peers && Enabled(s'.peers[p]) ==> Lookup(s'.kernel.table, p) == Some(OwnRoute(s'.peers[p]))
  {
    hide HasFlag, Lookup;
    PeersAppliedIdle(s.peers);
  }

  /** A peer leaves with its route iff it is enabled and its interface exists; a disabled one leaves behind what is there. */
  lemma PeerLeaves(s: State, s': State, p: Prefix)
    requires Holds(s) && Step(s, Commit, s') && Alone(s.kernel.table.Keys, s.peers.Keys)
    requires p in s.peers && p !in s'.peers
    ensures Lookup(s'.kernel.table, p) ==
            if Enabled(s.peers[p]) && s.peers[p].ifname in s.kernel.links then None else Lookup(s.kernel.table, p)
  {
    hide HasFlag, Lookup, PeersCommitted;
    var answers :| PeersCommitted(s.kernel, s'.kernel, s.peers, answers);
    PeerRouteCommitted(s.kernel, s'.kernel, s.peers, answers, p);
  }

  // The commit of a single peer.
  lemma OneCommitted(s: State, s': State, dest: Prefix, peer: Peer)
    requires Step(s, Commit, s') && Alone(s.kernel.table.Keys, {dest}) && s.peers == map[dest := peer]
    ensures s'.peers == if PeerApplied(peer).Some? then map[dest := PeerApplied(peer).value] else map[]
    ensures !ToAdd(peer) && !ToDelete(peer) ==> Lookup(s'.kernel.table, dest) == Lookup(s.kernel.table, dest)
    ensures ToAdd(peer) && Lookup(s.kernel.table, dest).Some? ==> Lookup(s'.kernel.table, dest) == Lookup(s.kernel.table, dest)
  {
    hide HasFlag, Lookup, PeersCommitted, PeerApplied;
    var answers :| PeersCommitted(s.kernel, s'.kernel, s.peers, answers);
    assert s.peers.Keys == {dest};
    PeerRouteCommitted(s.kernel, s'.kernel, s.peers, answers, dest);
  }

  /** The demand fails when a committed peer is added again over another interface: it is settled with its old route. */
  lemma Stranded(s: State, mid: State, s': State, dest: Prefix, ifname: string)
    requires Holds(s) && s.peers.Keys == {dest} && !s.peers[dest].Has(PIF_ADD_PENDING) && ifname != s.peers[dest].ifname
    requires Alone(s.kernel.table.Keys, {dest})
    requires Step(s, Add(ifname, dest, false), mid) && Step(mid, Commit, s')
    ensures !Undisturbed(mid, Commit)
    ensures s'.peers == map[dest := Peer(ifname, PIF_NONE)]
    ensures Lookup(s'.kernel.table, dest) == Some(OwnRoute(s.peers[dest]))
  {
    PendingFlags(s.peers[dest].flags, false, PIF_ADD_PENDING);
    PendingFlags(s.peers[dest].flags, false, PIF_DISABLED);
    hide HasFlag, Lookup, PeersCommitted, AddedFlags, PeersApplied;
    var peer := Peer(ifname, AddedFlags(s.peers[dest].flags, false));
    assert PeerHolds(s.peers[dest], Lookup(s.kernel.table, dest));
    assert mid.peers == map[dest := peer] && mid.kernel == s.kernel;
    assert ToAdd(peer) && PeerApplied(peer) == Some(Peer(ifname, PIF_NONE));
    OneCommitted(mid, s', dest, peer);
  }

  /** And a peer that gets disabled by an addition while it is in place, and is deleted then, leaves its route behind. */
  lemma Orphaned(s: State, one: State, two: State, s': State, dest: Prefix)
    requires Holds(s) && s.peers.Keys == {dest} && !s.peers[dest].Has(PIF_ADD_PENDING)
    requires Alone(s.kernel.table.Keys, {dest})
    requires Step(s, Add(s.peers[dest].ifname, dest, true), one) && Step(one, Del(dest), two) && Step(two, Commit, s')
    ensures s'.peers == map[] && Lookup(s'.kernel.table, dest) == Some(OwnRoute(s.peers[dest]))
  {
    PendingFlags(s.peers[dest].flags, true, PIF_DISABLED);
    PendingFlags(one.peers[dest].flags, true, PIF_DISABLED);
    PendingFlags(one.peers[dest].flags, true, PIF_DEL_PENDING);
    hide HasFlag, Lookup, PeersCommitted, AddedFlags, DeletedFlags, PeersApplied;
    var peer := MarkedPeer(Peer(s.peers[dest].ifname, AddedFlags(s.peers[dest].flags, true)));
    assert PeerHolds(s.peers[dest], Lookup(s.kernel.table, dest));
    assert two.peers == map[dest := peer] && two.kernel == s.kernel;
    assert PeerApplied(peer).None?;
    OneCommitted(two, s', dest, peer);
  }
}
