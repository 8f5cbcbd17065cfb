/**
 What one service group is, as a value: the gateways of one destination prefix
 with their flags, and what each operation makes of them
 (agent/router/servicemon/list.go, apply.go, reroute.go).
 */
module GatewayLists {
  import opened Net

  datatype Entry = Entry(ifname: string, publicKey: string, gateway: Addr, connectionID: int,
                         pendingAdd: bool, pendingDel: bool, active: bool)

  datatype Group = Group(entries: seq<Entry>, disabled: bool, groupID: int)

  // ---- Lookups ---------------------------------------------------------------

  function First(l: seq<Entry>, f: Entry -> bool): (r: Option<Entry>)
    ensures r.Some? ==> r.value in l && f(r.value)
    ensures r.None? ==> forall e :: e in l ==> !f(e)
  {
    if l == [] then None
    else if f(l[0]) then Some(l[0])
    else First(l[1..], f)
  }

  lemma {:induction false} FirstAt(l: seq<Entry>, f: Entry -> bool, i: nat)
    requires i < |l| && f(l[i])
    requires forall j :: 0 <= j < i ==> !f(l[j])
    ensures First(l, f) == Some(l[i])
  {
    if i > 0 {
      assert !f(l[0]);
      FirstAt(l[1..], f, i - 1);
    }
  }

  function Active(l: seq<Entry>): Option<Entry> {
    First(l, (e: Entry) => e.active)
  }

  function FindGateway(l: seq<Entry>, gw: Addr): Option<Entry> {
    First(l, (e: Entry) => e.gateway == gw)
  }

  function FindInterface(l: seq<Entry>, ifname: string): Option<Entry> {
    First(l, (e: Entry) => e.ifname == ifname)
  }

  function FirstKept(l: seq<Entry>): Option<Entry> {
    First(l, (e: Entry) => !e.pendingDel)
  }

  // The active entry, else the first one not marked for deletion.
  function Default(l: seq<Entry>): Option<Entry> {
    if Active(l).Some? then Active(l) else FirstKept(l)
  }

  // ---- Well-formed lists -------------------------------------------------------

  ghost predicate DistinctGateways(l: seq<Entry>) {
    forall i, j :: 0 <= i < j < |l| ==> l[i].gateway != l[j].gateway
  }

  ghost predicate SingleActive(l: seq<Entry>) {
    forall i, j :: 0 <= i < j < |l| ==> !(l[i].active && l[j].active)
  }

  ghost predicate WellFormed(l: seq<Entry>) {
    DistinctGateways(l) && SingleActive(l)
  }

  // No commit has seen these entries.
  ghost predicate Unapplied(l: seq<Entry>) {
    forall e :: e in l ==> e.pendingAdd && !e.active
  }

  // A group disabled by an address conflict has something to add and nothing in place.
  ghost predicate GroupOk(g: Group) {
    && WellFormed(g.entries)
    && (g.disabled ==> g.entries != [] && Unapplied(g.entries))
  }

  /** In a well-formed list the active entry, and the entry of a gateway, are unique. */
  lemma Unique(l: seq<Entry>, e: Entry)
    requires WellFormed(l) && e in l
    ensures e.active ==> Active(l) == Some(e)
    ensures FindGateway(l, e.gateway) == Some(e)
  {
    var i :| 0 <= i < |l| && l[i] == e;
    FirstAt(l, (x: Entry) => x.gateway == e.gateway, i);
    if e.active {
      FirstAt(l, (x: Entry) => x.active, i);
    }
  }

  // ---- Marking -------------------------------------------------------------------

  function Unmark(l: seq<Entry>, gw: Addr): seq<Entry> {
    seq(|l|, i requires 0 <= i < |l| => if l[i].gateway == gw then l[i].(pendingDel := false) else l[i])
  }

  // A gateway that is already listed keeps its entry and only loses the delete mark.
  function Added(l: seq<Entry>, e: Entry): seq<Entry> {
    if FindGateway(l, e.gateway).Some? then Unmark(l, e.gateway)
    else l + [e.(pendingAdd := true, pendingDel := false)]
  }

  function Marked(l: seq<Entry>, gw: Addr): seq<Entry> {
    seq(|l|, i requires 0 <= i < |l| => if l[i].gateway == gw then l[i].(pendingDel := true) else l[i])
  }

  function AllMarked(l: seq<Entry>): seq<Entry> {
    seq(|l|, i requires 0 <= i < |l| => l[i].(pendingDel := true))
  }

  function Settled(l: seq<Entry>): seq<Entry> {
    seq(|l|, i requires 0 <= i < |l| => l[i].(pendingAdd := false, pendingDel := false))
  }

  // Exactly the entry of the given gateway is active.
  function Activated(l: seq<Entry>, gw: Option<Addr>): seq<Entry> {
    seq(|l|, i requires 0 <= i < |l| => l[i].(active := gw == Some(l[i].gateway)))
  }

  function Kept(l: seq<Entry>): seq<Entry> {
    if l == [] then []
    else (if l[0].pendingDel then [] else [l[0]]) + Kept(l[1..])
  }

  lemma {:induction false} KeptAppend(l: seq<Entry>, e: Entry)
    ensures Kept(l + [e]) == Kept(l) + (if e.pendingDel then [] else [e])
  {
    var t := l + [e];
    if l == [] {
      assert t == [e] && Kept(t[1..]) == [];
    } else {
      assert t[0] == l[0] && t[1..] == l[1..] + [e];
      KeptAppend(l[1..], e);
    }
  }

  lemma {:induction false} KeptMembers(l: seq<Entry>)
    ensures forall e :: e in Kept(l) <==> e in l && !e.pendingDel
    ensures WellFormed(l) ==> WellFormed(Kept(l))
  {
    if l != [] {
      KeptMembers(l[1..]);
      assert l == [l[0]] + l[1..];
      if WellFormed(l) {
        var r := Kept(l[1..]);
        assert WellFormed(l[1..]) by {
          forall i, j | 0 <= i < j < |l[1..]|
            ensures l[1..][i].gateway != l[1..][j].gateway && !(l[1..][i].active && l[1..][j].active)
          {
            assert l[1..][i] == l[i + 1] && l[1..][j] == l[j + 1];
          }
        }
        forall j | 0 <= j < |r|
          ensures l[0].gateway != r[j].gateway && !(l[0].active && r[j].active)
        {
          assert r[j] in l[1..];
          var k :| 0 <= k < |l[1..]| && l[1..][k] == r[j];
          assert l[k + 1] == r[j];
        }
      }
    }
  }

  // ---- Moving the route ------------------------------------------------------------

  // The kernel slot after the active entry moves from `prev` to `next`; `taken` is the
  // answer of the address search inside RouteAdd.
  function MovedSlot(s: Slot, links: set<string>, taken: bool, prev: Option<Entry>, next: Option<Entry>): Slot {
    match (prev, next)
    case (None, None) => s
    case (Some(o), None) => DelSlot(s, links, o.ifname)
    case (None, Some(n)) => AddSlot(s, links, taken, Route(n.ifname, None))
    case (Some(o), Some(n)) =>
      if o.gateway == n.gateway then s else ReplaceSlot(s, links, Route(n.ifname, None))
  }

  function GatewayOf(e: Option<Entry>): Option<Addr> {
    match e
    case None => None
    case Some(x) => Some(x.gateway)
  }

  // The entry a selected gateway names; reroute accepts any, a merge refuses one
  // that is marked for deletion.
  function Chosen(l: seq<Entry>, gw: Option<Addr>): Option<Entry> {
    if gw.None? then None else FindGateway(l, gw.value)
  }

  function Target(l: seq<Entry>, gw: Option<Addr>): Option<Entry> {
    var e := Chosen(l, gw);
    if e.Some? && e.value.pendingDel then None else e
  }

  function Rerouted(l: seq<Entry>, gw: Option<Addr>): seq<Entry> {
    Activated(l, GatewayOf(Chosen(l, gw)))
  }

  function Merged(l: seq<Entry>, gw: Option<Addr>): seq<Entry> {
    Activated(Settled(Kept(l)), GatewayOf(Target(l, gw)))
  }

  function Cleared(l: seq<Entry>): seq<Entry> {
    Settled(Activated(l, None))
  }

  function ClearedSlot(s: Slot, links: set<string>, l: seq<Entry>): Slot {
    match Active(l)
    case None => s
    case Some(a) => DelSlot(s, links, a.ifname)
  }

  // The entry a first commit activates: a fresh one when the destination is free,
  // else one on the interface that already has the route.
  function Picked(l: seq<Entry>, found: Option<string>): Option<Entry> {
    if found.None? then Default(l) else FindInterface(l, found.value)
  }

  function Installed(l: seq<Entry>, found: Option<string>): seq<Entry> {
    match Picked(l, found)
    case None => l
    case Some(e) => Activated(l, Some(e.gateway))
  }

  function SetUp(l: seq<Entry>, found: Option<string>): seq<Entry> {
    Settled(Installed(l, found))
  }

  function SetUpSlot(s: Slot, links: set<string>, l: seq<Entry>, found: Option<string>): Slot {
    if found.None? && Default(l).Some?
    then AddSlot(s, links, false, Route(Default(l).value.ifname, None))
    else s
  }

  // ---- One commit ------------------------------------------------------------------

  // How many entries are to be added, and to be deleted.
  function ToAdd(l: seq<Entry>): nat {
    if l == [] then 0 else ToAdd(l[..|l| - 1]) + if l[|l| - 1].pendingAdd then 1 else 0
  }

  function ToDelete(l: seq<Entry>): nat {
    if l == [] then 0 else ToDelete(l[..|l| - 1]) + if l[|l| - 1].pendingDel then 1 else 0
  }

  /** The two counts tell what the phases are about. */
  lemma {:induction false} CountsTell(l: seq<Entry>)
    ensures ToAdd(l) <= |l| && ToDelete(l) <= |l|
    ensures ToAdd(l) == 0 <==> forall e :: e in l ==> !e.pendingAdd
    ensures ToDelete(l) == 0 <==> forall e :: e in l ==> !e.pendingDel
    ensures ToAdd(l) == |l| <==> forall e :: e in l ==> e.pendingAdd
    ensures ToDelete(l) == |l| <==> forall e :: e in l ==> e.pendingDel
    decreases |l|
  {
    if l != [] {
      CountsTell(l[..|l| - 1]);
      assert l == l[..|l| - 1] + [l[|l| - 1]];
    }
  }

  datatype Phase = Idle | Set | Clear | Merge

  function PhaseOf(l: seq<Entry>): Phase {
    if forall e :: e in l ==> !e.pendingAdd && !e.pendingDel then Idle
    else if forall e :: e in l ==> e.pendingAdd && !e.pendingDel then Set
    else if forall e :: e in l ==> !e.pendingAdd && e.pendingDel then Clear
    else Merge
  }

  // None: the group leaves the map.
  function Applied(g: Group, best: Option<Addr>, found: Option<string>): Option<Group> {
    if g.disabled then Some(g) else
    match PhaseOf(g.entries)
    case Idle => Some(g)
    case Set => Some(g.(entries := SetUp(g.entries, found)))
    case Clear => None
    case Merge => Some(g.(entries := Merged(g.entries, best)))
  }

  function AppliedSlot(s: Slot, links: set<string>, g: Group, best: Option<Addr>, found: Option<string>): Slot {
    if g.disabled then s else
    match PhaseOf(g.entries)
    case Idle => s
    case Set => SetUpSlot(s, links, g.entries, found)
    case Clear => ClearedSlot(s, links, g.entries)
    case Merge => MovedSlot(s, links, found.Some?, Active(g.entries), Target(g.entries, best))
  }

  // ---- Well-formedness is kept -------------------------------------------------------

  lemma AddedKeeps(l: seq<Entry>, e: Entry)
    requires WellFormed(l) && !e.active
    ensures WellFormed(Added(l, e))
    ensures Added(l, e) != []
    ensures Unapplied(l) ==> Unapplied(Added(l, e))
  {
    var r := Added(l, e);
    if FindGateway(l, e.gateway).None? {
      forall i | 0 <= i < |l| ensures l[i].gateway != e.gateway {
        assert l[i] in l;
      }
    }
    if Unapplied(l) {
      forall x | x in r ensures x.pendingAdd && !x.active {
        var i :| 0 <= i < |r| && r[i] == x;
        assert i < |l| ==> l[i] in l;
      }
    }
  }

  lemma MarkedKeeps(l: seq<Entry>, gw: Addr)
    requires WellFormed(l)
    ensures WellFormed(Marked(l, gw))
    ensures WellFormed(AllMarked(l))
    ensures |Marked(l, gw)| == |l| && (Unapplied(l) ==> Unapplied(Marked(l, gw)))
  {
    if Unapplied(l) {
      var r := Marked(l, gw);
      forall x | x in r ensures x.pendingAdd && !x.active {
        var i :| 0 <= i < |r| && r[i] == x;
        assert l[i] in l;
      }
    }
  }

  lemma ActivatedKeeps(l: seq<Entry>, gw: Option<Addr>)
    requires DistinctGateways(l)
    ensures WellFormed(Activated(l, gw))
    ensures WellFormed(Settled(Activated(l, gw)))
  {
  }

  /** A commit or a reroute leaves gateways distinct and at most one entry active. */
  lemma AppliedKeeps(g: Group, best: Option<Addr>, found: Option<string>)
    requires GroupOk(g)
    ensures var r := Applied(g, best, found); r.Some? ==> GroupOk(r.value)
    ensures !g.disabled ==> GroupOk(g.(entries := Rerouted(g.entries, best)))
  {
    var l := g.entries;
    KeptMembers(l);
    ActivatedKeeps(l, GatewayOf(Picked(l, found)));
    ActivatedKeeps(l, GatewayOf(Chosen(l, best)));
    ActivatedKeeps(Settled(Kept(l)), GatewayOf(Target(l, best)));
  }

  // ---- Agreement with the kernel -------------------------------------------------------

  // The kernel routes the destination over the active entry's interface, and has no route
  // when no entry is active.
  ghost predicate Agrees(l: seq<Entry>, s: Slot) {
    match Active(l)
    case None => s.None?
    case Some(a) => s.Some? && s.value.ifname == a.ifname
  }

  lemma ActivatedActive(l: seq<Entry>, e: Option<Entry>)
    requires DistinctGateways(l)
    requires e.Some? ==> e.value in l
    ensures var r := Activated(l, GatewayOf(e));
            && Active(r) == (if e.None? then None else Some(e.value.(active := true)))
            && Active(Settled(r)) ==
               (if e.None? then None else Some(e.value.(active := true, pendingAdd := false, pendingDel := false)))
  {
    var r := Activated(l, GatewayOf(e));
    if e.Some? {
      var i :| 0 <= i < |l| && l[i] == e.value;
      FirstAt(r, (x: Entry) => x.active, i);
      FirstAt(Settled(r), (x: Entry) => x.active, i);
    }
  }

  lemma SettledActive(l: seq<Entry>)
    requires WellFormed(l)
    ensures Active(Settled(l)) ==
            (if Active(l).None? then None else Some(Active(l).value.(pendingAdd := false, pendingDel := false)))
  {
    if Active(l).Some? {
      var i :| 0 <= i < |l| && l[i] == Active(l).value;
      FirstAt(Settled(l), (x: Entry) => x.active, i);
    } else {
      assert forall x :: x in Settled(l) ==> exists i :: 0 <= i < |l| && !l[i].active && x == Settled(l)[i] by {
        forall x | x in Settled(l) ensures exists i :: 0 <= i < |l| && !l[i].active && x == Settled(l)[i] {
          var i :| 0 <= i < |l| && Settled(l)[i] == x;
          assert l[i] in l;
        }
      }
    }
  }

  /**
   Moving the active entry makes cache and kernel agree exactly when they already agreed (nothing
   to change), or the kernel call finds what it needs. This holds for every slot, also one written
   by someone else and one whose interface is gone.
   */
  lemma MoveExact(l: seq<Entry>, l': seq<Entry>, s: Slot, links: set<string>, taken: bool, next: Option<Entry>)
    requires s.Some? ==> taken
    requires GatewayOf(Active(l')) == GatewayOf(next)
    requires next.Some? ==> Active(l').Some? && Active(l').value.ifname == next.value.ifname
    requires next.Some? && Active(l).Some? && next.value.gateway == Active(l).value.gateway
             ==> next.value.ifname == Active(l).value.ifname
    ensures Agrees(l', MovedSlot(s, links, taken, Active(l), next)) <==>
            match (Active(l), next)
            case (None, None) => s.None?
            case (Some(o), None) => s.None? || (s.value.ifname == o.ifname && o.ifname in links)
            case (None, Some(n)) => if taken then s.Some? && s.value.ifname == n.ifname else n.ifname in links
            case (Some(o), Some(n)) =>
              || (s.Some? && s.value.ifname == n.ifname)
              || (o.gateway != n.gateway && n.ifname in links)
  {
  }

  /** A first commit agrees with the kernel exactly when a free destination gets its route, or one of the
      group's interfaces already carries it. */
  lemma SetUpExact(l: seq<Entry>, s: Slot, links: set<string>)
    requires WellFormed(l) && PhaseOf(l) == Set
    ensures Agrees(SetUp(l, Found(s)), SetUpSlot(s, links, l, Found(s))) <==>
            if s.None? then Default(l).value.ifname in links
            else exists e :: e in l && e.ifname == s.value.ifname
  {
    assert l[0] in l;
    ActivatedActive(l, Picked(l, Found(s)));
    SettledActive(l);
    assert forall e :: e in l ==> e.pendingAdd && !e.pendingDel;
    assert Default(l).Some?;
  }

  /** The same for any answer of the search: a route to another prefix with the same address is taken
      for this one, and then nothing is installed. */
  lemma SetUpShadowed(l: seq<Entry>, links: set<string>, ifname: string)
    requires WellFormed(l)
    ensures Agrees(SetUp(l, Some(ifname)), SetUpSlot(None, links, l, Some(ifname))) <==>
            FindInterface(l, ifname).None? && Active(l).None?
  {
    ActivatedActive(l, Picked(l, Some(ifname)));
    SettledActive(l);
  }

  /** Clearing a group agrees exactly when no route is left. */
  lemma ClearExact(l: seq<Entry>, s: Slot, links: set<string>)
    requires WellFormed(l)
    ensures Active(Cleared(l)).None?
    ensures Agrees(Cleared(l), ClearedSlot(s, links, l)) <==>
            s.None? || (Active(l).Some? && s.value.ifname == Active(l).value.ifname && s.value.ifname in links)
  {
    ActivatedActive(l, None);
  }
}
