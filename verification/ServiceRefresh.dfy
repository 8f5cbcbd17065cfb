/**
 A new configuration: everything is marked for deletion, the wanted gateways are
 added, and the result is committed (agent/router/servicemon/srvmon.go:34-48,
 95-116). The configuration replaces the old one.
 */
module ServiceRefresh {
  import opened Net
  import opened GatewayLists
  import opened Monitors

  datatype Wanted = Wanted(path: NetworkPath, ip: Prefix)

  function AddedAll(m: Monitor, adds: seq<Wanted>): Monitor {
    if adds == [] then m
    else var w := adds[|adds| - 1];
         AddedTo(AddedAll(m, adds[..|adds| - 1]), w.path, w.ip, false)
  }

  ghost predicate IsWanted(adds: seq<Wanted>, ip: Prefix, gw: Addr) {
    exists w :: w in adds && w.ip == ip && w.path.gateway == gw
  }

  function Prefixes(adds: seq<Wanted>): set<Prefix> {
    set w | w in adds :: w.ip
  }

  function Gateways(l: seq<Entry>): set<Addr> {
    set e | e in l :: e.gateway
  }

  // Nothing is disabled, empty or pending.
  ghost predicate IsSettled(m: Monitor) {
    forall p :: p in m ==> GroupSettled(m[p])
  }

  ghost predicate GroupSettled(g: Group) {
    && WellFormed(g.entries) && !g.disabled && g.entries != []
    && forall e :: e in g.entries ==> !e.pendingAdd && !e.pendingDel
  }

  function Before(m: Monitor, p: Prefix): seq<Entry> {
    if p in m then m[p].entries else []
  }

  // A group after the additions: the old entries, marked unless wanted, and the newly wanted ones.
  ghost predicate Marking(old': seq<Entry>, l: seq<Entry>, adds: seq<Wanted>, ip: Prefix) {
    && WellFormed(l)
    && (forall e :: e in l ==>
          if e.gateway in Gateways(old') then e.(pendingDel := false) in old' && e.pendingDel == !IsWanted(adds, ip, e.gateway)
          else e.pendingAdd && !e.pendingDel && !e.active && IsWanted(adds, ip, e.gateway))
    && Gateways(old') <= Gateways(l)
    && forall gw :: IsWanted(adds, ip, gw) ==> gw in Gateways(l)
  }

  lemma Extends(adds: seq<Wanted>, w: Wanted, ip: Prefix, gw: Addr)
    ensures IsWanted(adds + [w], ip, gw) <==> IsWanted(adds, ip, gw) || (w.ip == ip && w.path.gateway == gw)
  {
    if IsWanted(adds, ip, gw) {
      var x :| x in adds && x.ip == ip && x.path.gateway == gw;
      assert x in adds + [w];
    }
    assert w in adds + [w];
  }

  lemma MarkingOther(old': seq<Entry>, l: seq<Entry>, adds: seq<Wanted>, w: Wanted, ip: Prefix)
    requires Marking(old', l, adds, ip) && w.ip != ip
    ensures Marking(old', l, adds + [w], ip)
  {
    forall gw ensures IsWanted(adds + [w], ip, gw) <==> IsWanted(adds, ip, gw) {
      Extends(adds, w, ip, gw);
    }
  }

  lemma MarkingStep(old': seq<Entry>, l: seq<Entry>, adds: seq<Wanted>, w: Wanted)
    requires Marking(old', l, adds, w.ip)
    requires WellFormed(old') && forall e :: e in old' ==> !e.pendingAdd && !e.pendingDel
    ensures Marking(old', Added(l, NewEntry(w.path)), adds + [w], w.ip)
  {
    var e, gw := NewEntry(w.path), w.path.gateway;
    var r := Added(l, e);
    AddedKeeps(l, e);
    forall g ensures IsWanted(adds + [w], w.ip, g) <==> IsWanted(adds, w.ip, g) || g == gw {
      Extends(adds, w, w.ip, g);
    }
    forall g | g in Gateways(l) || g == gw ensures g in Gateways(r) {
      if g in Gateways(l) {
        var i :| 0 <= i < |l| && l[i].gateway == g;
        assert r[i] in r && r[i].gateway == g;
      } else {
        assert FindGateway(l, gw).None?;
        assert r[|l|] in r && r[|l|].gateway == gw;
      }
    }
    forall x | x in r
      ensures if x.gateway in Gateways(old')
              then x.(pendingDel := false) in old' && x.pendingDel == !IsWanted(adds + [w], w.ip, x.gateway)
              else x.pendingAdd && !x.pendingDel && !x.active && IsWanted(adds + [w], w.ip, x.gateway)
    {
      var i :| 0 <= i < |r| && r[i] == x;
      if i < |l| {
        assert l[i] in l;
        assert x.(pendingDel := false) == l[i].(pendingDel := false);
        if l[i].gateway == gw && FindGateway(l, gw).None? {
          assert false;
        }
      } else {
        assert x == e.(pendingAdd := true);
        assert gw !in Gateways(l);
      }
    }
  }

  lemma FlushMarks(m: Monitor, p: Prefix)
    requires IsSettled(m) && p in m
    ensures p in Flushed(m) && !Flushed(m)[p].disabled
    ensures Marking(m[p].entries, Flushed(m)[p].entries, [], p)
  {
    var l := m[p].entries;
    var r := AllMarked(l);
    MarkedKeeps(l, 0);
    forall x | x in r ensures x.(pendingDel := false) in l && x.pendingDel && x.gateway in Gateways(l) {
      var i :| 0 <= i < |r| && r[i] == x;
      assert l[i] in l && x.(pendingDel := false) == l[i];
    }
    forall g | g in Gateways(l) ensures g in Gateways(r) {
      var i :| 0 <= i < |l| && l[i].gateway == g;
      assert r[i] in r;
    }
  }

  lemma EmptyMarking(adds: seq<Wanted>, p: Prefix)
    requires p !in Prefixes(adds)
    ensures Marking([], [], adds, p)
  {
    assert forall gw :: !IsWanted(adds, p, gw);
  }

  lemma {:induction false} AdditionKeys(m: Monitor, adds: seq<Wanted>)
    ensures AddedAll(m, adds).Keys == m.Keys + Prefixes(adds)
  {
    if adds != [] {
      var h, w := adds[..|adds| - 1], adds[|adds| - 1];
      assert adds == h + [w];
      AdditionKeys(m, h);
    }
  }

  /** What the additions leave behind, whatever their number and order. */
  lemma {:induction false} AdditionsMark(m: Monitor, adds: seq<Wanted>, p: Prefix)
    requires IsSettled(m) && p in AddedAll(Flushed(m), adds)
    ensures var r := AddedAll(Flushed(m), adds);
            !r[p].disabled && Marking(Before(m, p), r[p].entries, adds, p)
  {
    if adds == [] {
      FlushMarks(m, p);
    } else {
      var h, w := adds[..|adds| - 1], adds[|adds| - 1];
      assert adds == h + [w];
      AdditionKeys(Flushed(m), h);
      var b := AddedAll(Flushed(m), h);
      if p in b {
        AdditionsMark(m, h, p);
      }
      AdditionMarks(m, b, h, w, p);
    }
  }

  lemma AdditionMarks(m: Monitor, b: Monitor, h: seq<Wanted>, w: Wanted, p: Prefix)
    requires IsSettled(m) && b.Keys == m.Keys + Prefixes(h) && p in AddedTo(b, w.path, w.ip, false)
    requires p in b ==> !b[p].disabled && Marking(Before(m, p), b[p].entries, h, p)
    ensures var r := AddedTo(b, w.path, w.ip, false);
            !r[p].disabled && Marking(Before(m, p), r[p].entries, h + [w], p)
  {
    hide Marking, IsWanted, Added;
    if p != w.ip {
      MarkingOther(Before(m, p), b[p].entries, h, w, p);
    } else {
      if p !in b {
        EmptyMarking(h, p);
      }
      MarkingStep(Before(m, p), GroupAt(b, p, false, w.path.groupID).entries, h, w);
    }
  }

  // The committed list has exactly the entries of `l` that are not marked, with no mark left.
  ghost predicate Commits(l: seq<Entry>, r: seq<Entry>) {
    && WellFormed(r)
    && (forall e :: e in r ==> exists x :: x in l && !x.pendingDel && e == x.(pendingAdd := false, active := e.active))
    && (forall x :: x in l && !x.pendingDel ==> x.gateway in Gateways(r))
  }

  lemma CommitKept(l: seq<Entry>, r: seq<Entry>)
    requires WellFormed(l) && WellFormed(r)
    requires |r| == |Kept(l)|
    requires forall i :: 0 <= i < |r| ==> r[i] == Kept(l)[i].(pendingAdd := false, pendingDel := false, active := r[i].active)
    ensures Commits(l, r)
  {
    KeptMembers(l);
    forall e | e in r
      ensures exists x :: x in l && !x.pendingDel && e == x.(pendingAdd := false, active := e.active)
    {
      var i :| 0 <= i < |r| && r[i] == e;
      assert Kept(l)[i] in Kept(l);
    }
    forall x | x in l && !x.pendingDel ensures x.gateway in Gateways(r) {
      var i :| 0 <= i < |r| && Kept(l)[i] == x;
      assert r[i] in r;
    }
  }

  lemma {:induction false} KeptAll(l: seq<Entry>)
    requires forall e :: e in l ==> !e.pendingDel
    ensures Kept(l) == l
  {
    if l != [] {
      KeptAll(l[1..]);
      assert l == [l[0]] + l[1..];
    }
  }

  lemma SettledIdle(l: seq<Entry>)
    requires forall e :: e in l ==> !e.pendingAdd && !e.pendingDel
    ensures Settled(l) == l
  {
    forall i | 0 <= i < |l| ensures !l[i].pendingAdd && !l[i].pendingDel { assert l[i] in l; }
  }

  lemma SetUpEntries(l: seq<Entry>, found: Option<string>)
    ensures var r := SetUp(l, found);
            && |r| == |l|
            && forall i :: 0 <= i < |r| ==> r[i] == l[i].(pendingAdd := false, pendingDel := false, active := r[i].active)
  {
  }

  lemma MergedEntries(l: seq<Entry>, best: Option<Addr>)
    ensures var r := Merged(l, best);
            && |r| == |Kept(l)|
            && forall i :: 0 <= i < |r| ==> r[i] == Kept(l)[i].(pendingAdd := false, pendingDel := false, active := r[i].active)
  {
  }

  lemma AppliedCommits(g: Group, best: Option<Addr>, found: Option<string>)
    requires WellFormed(g.entries) && !g.disabled
    requires exists x :: x in g.entries && !x.pendingDel
    ensures var r := Applied(g, best, found);
            r.Some? && !r.value.disabled && r.value.groupID == g.groupID && Commits(g.entries, r.value.entries)
  {
    hide SetUp, Merged, Kept, Commits, WellFormed;
    var l := g.entries;
    AppliedKeeps(g, best, found);
    match PhaseOf(l)
    case Idle =>
      SettledIdle(l);
      KeptAll(l);
      CommitKept(l, l);
    case Set =>
      KeptAll(l);
      SetUpEntries(l, found);
      CommitKept(l, SetUp(l, found));
    case Clear =>
    case Merge =>
      MergedEntries(l, best);
      CommitKept(l, Merged(l, best));
  }

  lemma GatewaysMatch(old': seq<Entry>, l: seq<Entry>, r: seq<Entry>, adds: seq<Wanted>, p: Prefix, gw: Addr)
    requires Marking(old', l, adds, p) && Commits(l, r)
    ensures gw in Gateways(r) <==> IsWanted(adds, p, gw)
  {
    if gw in Gateways(r) {
      var e :| e in r && e.gateway == gw;
      var x :| x in l && !x.pendingDel && e == x.(pendingAdd := false, active := e.active);
    }
    if IsWanted(adds, p, gw) {
      var x :| x in l && x.gateway == gw;
    }
  }

  lemma RefreshAt(m: Monitor, adds: seq<Wanted>, b: Monitor, answers: Answers, best: Option<Addr>, p: Prefix)
    requires IsSettled(m) && p in b && !b[p].disabled && b.Keys == m.Keys + Prefixes(adds)
    requires Marking(Before(m, p), b[p].entries, adds, p)
    ensures var r := AppliedAt(b, answers, p, best);
            && (r.Some? <==> p in Prefixes(adds))
            && (r.Some? ==> Commits(b[p].entries, r.value.entries) && !r.value.disabled && r.value.entries != [])
  {
    var l := b[p].entries;
    if p in Prefixes(adds) {
      var w :| w in adds && w.ip == p;
      assert IsWanted(adds, p, w.path.gateway);
      var x :| x in l && x.gateway == w.path.gateway;
      AppliedCommits(b[p], best, Answer(answers, p));
    } else {
      assert forall gw :: !IsWanted(adds, p, gw);
      var o := m[p].entries[0];
      assert o in m[p].entries;
      assert o.gateway in Gateways(l);
      var x :| x in l && x.gateway == o.gateway;
      forall e | e in l ensures e.pendingDel && !e.pendingAdd {
        assert e.(pendingDel := false) in m[p].entries;
      }
      assert PhaseOf(l) == Clear;
    }
  }

  // What becomes of one destination.
  lemma RefreshGroup(m: Monitor, adds: seq<Wanted>, answers: Answers, best: Option<Addr>, p: Prefix)
    requires IsSettled(m)
    ensures var r := AppliedAll(AddedAll(Flushed(m), adds), answers, best);
            && (p in r <==> p in Prefixes(adds))
            && (p in r ==>
                 && GroupSettled(r[p])
                 && (forall gw :: gw in Gateways(r[p].entries) <==> IsWanted(adds, p, gw))
                 && (forall e :: e in r[p].entries && e.gateway in Gateways(Before(m, p)) ==>
                       exists x :: x in m[p].entries && e == x.(active := e.active)))
  {
    var b := AddedAll(Flushed(m), adds);
    AdditionKeys(Flushed(m), adds);
    assert Flushed(m).Keys == m.Keys;
    hide AddedAll, Flushed;
    if p in b {
      AdditionsMark(m, adds, p);
      RefreshAt(m, adds, b, answers, best, p);
      var r := AppliedAt(b, answers, p, best);
      if r.Some? {
        hide AppliedAt;
        forall gw ensures gw in Gateways(r.value.entries) <==> IsWanted(adds, p, gw) {
          GatewaysMatch(Before(m, p), b[p].entries, r.value.entries, adds, p, gw);
        }
        CommitSettled(Before(m, p), b[p].entries, r.value, adds, p);
      }
    }
  }

  lemma CommitSettled(old': seq<Entry>, l: seq<Entry>, g: Group, adds: seq<Wanted>, p: Prefix)
    requires Marking(old', l, adds, p) && Commits(l, g.entries) && !g.disabled && g.entries != []
    requires forall e :: e in old' ==> !e.pendingAdd
    ensures GroupSettled(g)
    ensures forall e :: e in g.entries && e.gateway in Gateways(old') ==> exists x :: x in old' && e == x.(active := e.active)
  {
    forall e | e in g.entries && e.gateway in Gateways(old') ensures exists x :: x in old' && e == x.(active := e.active) {
      var x :| x in l && !x.pendingDel && e == x.(pendingAdd := false, active := e.active);
      assert x.(pendingDel := false) in old';
      assert x in old';
    }
  }

  /**
   Full refresh means replacement. From a settled state, whatever the route searches answer and the
   selected gateway, exactly the wanted destinations remain, each with exactly its wanted gateways; the result is settled
   again; and a gateway that was there before keeps its old entry, whatever the new path says.
   */
  lemma RefreshReplaces(m: Monitor, adds: seq<Wanted>, answers: Answers, best: Option<Addr>)
    requires IsSettled(m)
    ensures var r := AppliedAll(AddedAll(Flushed(m), adds), answers, best);
            && IsSettled(r)
            && r.Keys == Prefixes(adds)
            && (forall p, gw :: p in r ==> (gw in Gateways(r[p].entries) <==> IsWanted(adds, p, gw)))
            && (forall p, e :: p in r && e in r[p].entries && e.gateway in Gateways(Before(m, p)) ==>
                  exists x :: x in m[p].entries && e == x.(active := e.active))
  {
    hide GroupSettled, AppliedAll, AddedAll, Flushed;
    forall p {
      RefreshGroup(m, adds, answers, best, p);
    }
  }
}
