/**
 A service monitor as a value: the groups of all destination prefixes, and what each
 operation does to them and to the kernel table (agent/router/servicemon/srvmon.go,
 apply.go, reroute.go).
 */
module Monitors {
  import opened Net
  import opened SelectedRoutes
  import opened GatewayLists

  datatype NetworkPath = NetworkPath(ifname: string, publicKey: string, gateway: Addr, connectionID: int, groupID: int)

  // Message to the controller about a changed connection.
  datatype Report = Report(prevID: int, newID: int, groupID: int, reason: string)

  // Message to the controller about a destination: which connection, and whether the route is in.
  datatype RouteStatus = RouteStatus(dest: Prefix, connectionID: int, groupID: int, ok: bool)

  function SelectedAddr(sel: Option<SelectedRoute>): Option<Addr> {
    if sel.Some? then sel.value.ip else None
  }

  function SelectedID(sel: Option<SelectedRoute>): int {
    if sel.Some? then sel.value.id else 0
  }

  function SelectedReason(sel: Option<SelectedRoute>): string {
    if sel.Some? then sel.value.reason.Text() else ""
  }

  type Monitor = map<Prefix, Group>

  ghost predicate MonitorOk(m: Monitor) {
    forall p :: p in m ==> GroupOk(m[p])
  }

  function NewEntry(path: NetworkPath): Entry {
    Entry(path.ifname, path.publicKey, path.gateway, path.connectionID, false, false, false)
  }

  function GroupAt(m: Monitor, ip: Prefix, disabled: bool, groupID: int): Group {
    if ip in m then m[ip] else Group([], disabled, groupID)
  }

  // ---- Marking -----------------------------------------------------------------

  function AddedTo(m: Monitor, path: NetworkPath, ip: Prefix, disabled: bool): Monitor {
    var g := GroupAt(m, ip, disabled, path.groupID);
    m[ip := g.(entries := Added(g.entries, NewEntry(path)))]
  }

  function MarkedIn(m: Monitor, path: NetworkPath, ip: Prefix): Monitor {
    if ip in m then m[ip := m[ip].(entries := Marked(m[ip].entries, path.gateway))] else m
  }

  function Flushed(m: Monitor): Monitor {
    map p | p in m && !m[p].disabled :: m[p].(entries := AllMarked(m[p].entries))
  }

  // The group claims its prefix against other connection groups.
  predicate Live(g: Group) {
    !g.disabled && exists e :: e in g.entries && (e.pendingAdd || !e.pendingDel)
  }

  // A disabled group whose prefix nobody else claims any more.
  predicate Resolvable(g: Group, p: Prefix, isIPconflict: Prefix -> bool) {
    g.disabled && !isIPconflict(p)
  }

  function Resolved(m: Monitor, isIPconflict: Prefix -> bool): Monitor {
    map p | p in m :: if Resolvable(m[p], p, isIPconflict) then m[p].(disabled := false) else m[p]
  }

  function ResolvedKeys(m: Monitor, keys: set<Prefix>, isIPconflict: Prefix -> bool): set<Prefix> {
    set p | p in keys && p in m && Resolvable(m[p], p, isIPconflict)
  }

  // The groups of `was` but those of `todo` have been flushed, or dropped.
  ghost predicate Flushing(was: Monitor, now: Monitor, dropped: set<Prefix>, todo: set<Prefix>) {
    && now.Keys == was.Keys && dropped <= was.Keys
    && forall p :: p in was ==>
         && (p in dropped <==> p !in todo && was[p].disabled)
         && now[p] == if p in todo || was[p].disabled then was[p] else was[p].(entries := AllMarked(was[p].entries))
  }

  lemma FlushStarts(was: Monitor)
    ensures Flushing(was, was, {}, was.Keys)
  {
  }

  lemma FlushContinues(was: Monitor, now: Monitor, dropped: set<Prefix>, todo: set<Prefix>, ip: Prefix)
    requires Flushing(was, now, dropped, todo) && ip in todo && ip in was
    ensures now[ip] == was[ip]
    ensures if was[ip].disabled then Flushing(was, now, dropped + {ip}, todo - {ip})
            else Flushing(was, now[ip := was[ip].(entries := AllMarked(was[ip].entries))], dropped, todo - {ip})
  {
    hide AllMarked;
  }

  lemma FlushEnds(was: Monitor, now: Monitor, dropped: set<Prefix>)
    requires Flushing(was, now, dropped, {})
    ensures now - dropped == Flushed(was)
  {
    hide AllMarked;
  }

  // The groups of `was` but those of `todo` have been asked for a conflict, and `count` enabled.
  ghost predicate ResolveProgress(was: Monitor, now: Monitor, todo: set<Prefix>, isIPconflict: Prefix -> bool, count: nat) {
    && now.Keys == was.Keys && count == |ResolvedKeys(was, was.Keys - todo, isIPconflict)|
    && forall p :: p in was ==>
         now[p] == if p !in todo && Resolvable(was[p], p, isIPconflict) then was[p].(disabled := false) else was[p]
  }

  lemma ResolveStarts(was: Monitor, isIPconflict: Prefix -> bool)
    ensures ResolveProgress(was, was, was.Keys, isIPconflict, 0)
  {
    assert ResolvedKeys(was, was.Keys - was.Keys, isIPconflict) == {};
  }

  lemma ResolveContinues(was: Monitor, now: Monitor, todo: set<Prefix>, isIPconflict: Prefix -> bool, count: nat, ip: Prefix)
    requires ResolveProgress(was, now, todo, isIPconflict, count) && ip in todo && ip in was
    ensures now[ip] == was[ip]
    ensures if was[ip].disabled && !isIPconflict(ip)
            then ResolveProgress(was, now[ip := was[ip].(disabled := false)], todo - {ip}, isIPconflict, count + 1)
            else ResolveProgress(was, now, todo - {ip}, isIPconflict, count)
  {
    var before := ResolvedKeys(was, was.Keys - todo, isIPconflict);
    var after := ResolvedKeys(was, was.Keys - (todo - {ip}), isIPconflict);
    assert after == before + if Resolvable(was[ip], ip, isIPconflict) then {ip} else {};
  }

  lemma ResolveEnds(was: Monitor, now: Monitor, isIPconflict: Prefix -> bool, count: nat)
    requires ResolveProgress(was, now, {}, isIPconflict, count)
    ensures now == Resolved(was, isIPconflict) && count == |ResolvedKeys(was, was.Keys, isIPconflict)|
  {
    assert was.Keys - {} == was.Keys;
  }

  // ---- Kernel-facing operations -----------------------------------------------------

  // `answers` are those of the route searches made on the way.
  function AppliedAt(m: Monitor, answers: Answers, p: Prefix, best: Option<Addr>): Option<Group>
    requires p in m
  {
    Applied(m[p], best, Answer(answers, p))
  }

  function AppliedAll(m: Monitor, answers: Answers, best: Option<Addr>): Monitor {
    map p | p in m && AppliedAt(m, answers, p, best).Some? :: AppliedAt(m, answers, p, best).value
  }

  function SlotApplied(k: Kernel, m: Monitor, best: Option<Addr>, q: Prefix, found: Option<string>): Slot {
    var s := Lookup(k.table, q);
    if q in m then AppliedSlot(s, k.links, m[q], best, found) else s
  }

  function ReroutedGroup(g: Group, gw: Option<Addr>): Group {
    if g.disabled then g else g.(entries := Rerouted(g.entries, gw))
  }

  function ReroutedAll(m: Monitor, gw: Option<Addr>): Monitor {
    map p | p in m :: ReroutedGroup(m[p], gw)
  }

  function ReroutedSlot(s: Slot, links: set<string>, g: Group, gw: Option<Addr>, found: Option<string>): Slot {
    if g.disabled then s else MovedSlot(s, links, found.Some?, Active(g.entries), Chosen(g.entries, gw))
  }

  function SlotRerouted(k: Kernel, m: Monitor, gw: Option<Addr>, q: Prefix, found: Option<string>): Slot {
    var s := Lookup(k.table, q);
    if q in m then ReroutedSlot(s, k.links, m[q], gw, found) else s
  }

  function SlotClosed(k: Kernel, m: Monitor, q: Prefix): Slot {
    var s := Lookup(k.table, q);
    if q in m && !m[q].disabled then ClearedSlot(s, k.links, m[q].entries) else s
  }

  // The whole effect of a commit and of rerouting on the kernel.
  ghost predicate KernelApplied(k: Kernel, k': Kernel, m: Monitor, best: Option<Addr>, answers: Answers) {
    && k'.links == k.links && AreAnswers(k.table, m.Keys, answers)
    && forall q :: Lookup(k'.table, q) == SlotApplied(k, m, best, q, Answer(answers, q))
  }

  ghost predicate KernelRerouted(k: Kernel, k': Kernel, m: Monitor, gw: Option<Addr>, answers: Answers) {
    && k'.links == k.links && AreAnswers(k.table, m.Keys, answers)
    && forall q :: Lookup(k'.table, q) == SlotRerouted(k, m, gw, q, Answer(answers, q))
  }

  // What the controller is told about one destination by a commit.
  function SetUpStatus(dest: Prefix, groupID: int, l: seq<Entry>, links: set<string>, found: Option<string>): Option<RouteStatus> {
    match Picked(l, found)
    case None => None
    case Some(e) => Some(RouteStatus(dest, e.connectionID, groupID, found.Some? || e.ifname in links))
  }

  ghost function StatusOf(g: Group, dest: Prefix, links: set<string>, found: Option<string>): Option<RouteStatus> {
    if g.disabled || PhaseOf(g.entries) != Set then None
    else SetUpStatus(dest, g.groupID, g.entries, links, found)
  }

  ghost function StatusAt(m: Monitor, links: set<string>, answers: Answers, p: Prefix): Option<RouteStatus> {
    if p in m && p in answers then StatusOf(m[p], p, links, answers[p]) else None
  }

  // Every destination set up by a commit, and no other, is reported, once and as it turned out.
  ghost predicate StatusesExact(statuses: seq<RouteStatus>, m: Monitor, links: set<string>, answers: Answers) {
    && (forall i, j :: 0 <= i < j < |statuses| ==> statuses[i].dest != statuses[j].dest)
    && (forall s :: s in statuses ==> StatusAt(m, links, answers, s.dest) == Some(s))
    && (forall p :: StatusAt(m, links, answers, p).Some? ==> StatusAt(m, links, answers, p).value in statuses)
  }

  function Reported(prevID: int, newID: int, groupID: int, reason: string): seq<Report> {
    if prevID == newID then [] else [Report(prevID, newID, groupID, reason)]
  }

  /** The controller is told OK exactly when the kernel routes the destination as the cache says. */
  lemma StatusTruthful(g: Group, dest: Prefix, links: set<string>, s: Slot)
    requires WellFormed(g.entries) && !g.disabled && PhaseOf(g.entries) == Set
    ensures var status := StatusOf(g, dest, links, Found(s));
            (status.Some? && status.value.ok) <==>
            Agrees(SetUp(g.entries, Found(s)), SetUpSlot(s, links, g.entries, Found(s)))
  {
    SetUpExact(g.entries, s, links);
    if s.None? {
      assert Picked(g.entries, Found(s)) == Default(g.entries);
    }
  }

  // ---- A commit visits the groups one by one --------------------------------------

  // The visited groups of `was` are those of `now`, or dropped.
  ghost predicate Decided(was: Monitor, now: Monitor, dropped: set<Prefix>, answers: Answers, best: Option<Addr>) {
    forall p :: p in answers && p in was && p in now ==>
      Applied(was[p], best, answers[p]) == if p in dropped then None else Some(now[p])
  }

  lemma NothingDecided(was: Monitor, links: set<string>, best: Option<Addr>)
    ensures Decided(was, was, {}, map[], best) && StatusesExact([], was, links, map[])
  {
  }

  // A disabled group is passed over.
  lemma SkippedAt(g: Group, dest: Prefix, s: Slot, links: set<string>, best: Option<Addr>, found: Option<string>)
    requires g.disabled
    ensures Applied(g, best, found) == Some(g) && AppliedSlot(s, links, g, best, found) == s
    ensures StatusOf(g, dest, links, found) == None
  {
  }

  lemma DecidedNext(was: Monitor, now: Monitor, dropped: set<Prefix>, answers: Answers, best: Option<Addr>,
                    ip: Prefix, found: Option<string>, g: Group, keep: bool)
    requires Decided(was, now, dropped, answers, best) && ip in was && ip in now && ip !in answers && ip !in dropped
    requires Applied(was[ip], best, found) == if keep then Some(g) else None
    ensures Decided(was, now[ip := g], if keep then dropped else dropped + {ip}, answers[ip := found], best)
  {
    hide Applied;
  }

  lemma AllDecided(was: Monitor, now: Monitor, dropped: set<Prefix>, answers: Answers, best: Option<Addr>)
    requires Decided(was, now, dropped, answers, best)
    requires answers.Keys == was.Keys == now.Keys && dropped <= was.Keys
    ensures now - dropped == AppliedAll(was, answers, best)
  {
    hide Applied;
    forall p | p in was ensures p in now - dropped <==> AppliedAt(was, answers, p, best).Some? {
    }
  }

  lemma StatusStep(was: Monitor, links: set<string>, answers: Answers, statuses: seq<RouteStatus>,
                   ip: Prefix, found: Option<string>, status: Option<RouteStatus>)
    requires StatusesExact(statuses, was, links, answers) && ip in was && ip !in answers
    requires status == StatusOf(was[ip], ip, links, found)
    ensures StatusesExact(if status.Some? then statuses + [status.value] else statuses, was, links, answers[ip := found])
  {
    var answers' := answers[ip := found];
    assert status.Some? ==> status.value.dest == ip;
    assert forall p :: p != ip ==> StatusAt(was, links, answers', p) == StatusAt(was, links, answers, p);
    assert StatusAt(was, links, answers', ip) == status;
    hide StatusAt;
    assert forall s :: s in statuses ==> s.dest != ip;
  }

  // A commit has visited all groups of `was` but `todo`.
  ghost predicate Committing(k: Kernel, k': Kernel, was: Monitor, now: Monitor, dropped: set<Prefix>, todo: set<Prefix>,
                             best: Option<Addr>, answers: Answers, statuses: seq<RouteStatus>,
                             after: (Prefix, Option<string>) -> Slot) {
    && now.Keys == was.Keys && dropped <= was.Keys && dropped !! todo
    && (forall p :: p in todo && p in was ==> now[p] == was[p])
    && Underway(k, k', was.Keys, todo, answers, after)
    && Decided(was, now, dropped, answers, best) && StatusesExact(statuses, was, k.links, answers)
  }

  lemma CommitStarts(k: Kernel, was: Monitor, best: Option<Addr>, after: (Prefix, Option<string>) -> Slot)
    ensures Committing(k, k, was, was, {}, was.Keys, best, map[], [], after)
  {
    NothingVisited(k, was.Keys, after);
    NothingDecided(was, k.links, best);
  }

  lemma CommitContinues(k: Kernel, k': Kernel, was: Monitor, now: Monitor, dropped: set<Prefix>, todo: set<Prefix>,
                        best: Option<Addr>, answers: Answers, statuses: seq<RouteStatus>,
                        after: (Prefix, Option<string>) -> Slot,
                        ip: Prefix, found: Option<string>, g: Group, keep: bool, status: Option<RouteStatus>)
    requires Committing(k, k', was, now, dropped, todo, best, answers, statuses, after)
    requires ip in todo && todo <= was.Keys && IsSearch(k'.table, ip, found)
    requires Applied(now[ip], best, found) == if keep then Some(g) else None
    requires status == StatusOf(now[ip], ip, k'.links, found)
    ensures now[ip] == was[ip] && Lookup(k'.table, ip) == Lookup(k.table, ip) && k'.links == k.links
    ensures Committing(k, Write(k', ip, after(ip, found)), was, now[ip := g], if keep then dropped else dropped + {ip},
                       todo - {ip}, best, answers[ip := found],
                       if status.Some? then statuses + [status.value] else statuses, after)
  {
    hide IsSearch, StatusesExact, Decided, Applied, StatusOf;
    Visiting(k, k', was.Keys, todo, answers, after, ip, found);
    DecidedNext(was, now, dropped, answers, best, ip, found, g, keep);
    StatusStep(was, k.links, answers, statuses, ip, found, status);
  }

  lemma CommitEnds(k: Kernel, k': Kernel, was: Monitor, now: Monitor, dropped: set<Prefix>,
                   best: Option<Addr>, answers: Answers, statuses: seq<RouteStatus>,
                   after: (Prefix, Option<string>) -> Slot)
    requires Committing(k, k', was, now, dropped, {}, best, answers, statuses, after)
    requires forall q, found :: after(q, found) == SlotApplied(k, was, best, q, found)
    ensures now - dropped == AppliedAll(was, answers, best) && KernelApplied(k, k', was, best, answers)
    ensures StatusesExact(statuses, was, k.links, answers)
  {
    hide StatusesExact, AreAnswers, AppliedSlot, Decided;
    AllVisited(k, k', was.Keys, answers, after);
    AllDecided(was, now, dropped, answers, best);
  }

  // Rerouting has visited all groups of `was` but `todo`.
  ghost predicate Rerouting(k: Kernel, k': Kernel, was: Monitor, now: Monitor, todo: set<Prefix>, gw: Option<Addr>,
                            answers: Answers, after: (Prefix, Option<string>) -> Slot) {
    && now.Keys == was.Keys && Underway(k, k', was.Keys, todo, answers, after)
    && forall p :: p in was ==> now[p] == if p in todo then was[p] else ReroutedGroup(was[p], gw)
  }

  lemma RerouteStarts(k: Kernel, was: Monitor, gw: Option<Addr>, after: (Prefix, Option<string>) -> Slot)
    ensures Rerouting(k, k, was, was, was.Keys, gw, map[], after)
  {
    NothingVisited(k, was.Keys, after);
  }

  lemma RerouteContinues(k: Kernel, k': Kernel, was: Monitor, now: Monitor, todo: set<Prefix>, gw: Option<Addr>,
                         answers: Answers, after: (Prefix, Option<string>) -> Slot, ip: Prefix, found: Option<string>)
    requires Rerouting(k, k', was, now, todo, gw, answers, after)
    requires ip in todo && todo <= was.Keys && IsSearch(k'.table, ip, found)
    ensures now[ip] == was[ip] && Lookup(k'.table, ip) == Lookup(k.table, ip) && k'.links == k.links
    ensures Rerouting(k, Write(k', ip, after(ip, found)), was, now[ip := ReroutedGroup(now[ip], gw)], todo - {ip}, gw,
                      answers[ip := found], after)
  {
    hide IsSearch, ReroutedGroup;
    Visiting(k, k', was.Keys, todo, answers, after, ip, found);
  }

  lemma RerouteEnds(k: Kernel, k': Kernel, was: Monitor, now: Monitor, gw: Option<Addr>, answers: Answers,
                    after: (Prefix, Option<string>) -> Slot)
    requires Rerouting(k, k', was, now, {}, gw, answers, after)
    requires forall q, found :: after(q, found) == SlotRerouted(k, was, gw, q, found)
    ensures now == ReroutedAll(was, gw) && KernelRerouted(k, k', was, gw, answers)
  {
    hide AreAnswers, ReroutedSlot;
    AllVisited(k, k', was.Keys, answers, after);
  }

  /** For destinations that are alone the searches answer with the interfaces of their own routes. */
  lemma AnswersAlone(t: Table, m: Monitor, answers: Answers)
    requires Alone(t.Keys, m.Keys) && AreAnswers(t, m.Keys, answers)
    ensures forall p :: p in m ==> p in answers && answers[p] == Found(Lookup(t, p))
  {
    forall p | p in m ensures p in answers && answers[p] == Found(Lookup(t, p)) {
      AnswerAlone(t, m.Keys, p, answers[p]);
    }
  }
}
