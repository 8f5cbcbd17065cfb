/**
 The service monitor of one connection group: per destination prefix a list of
 gateways, of which at most one carries the kernel route
 (agent/router/servicemon).
 */
module ServiceMon {
  import opened Net
  import opened SelectedRoutes
  import opened GatewayLists
  import opened Monitors

  const RF_PENDING_ADD: bv8 := 0x01
  const RF_PENDING_DEL: bv8 := 0x02
  const RF_ACTIVE: bv8 := 0x80
  const RLF_DISABLED: bv16 := 0x01

  // ---- One gateway -----------------------------------------------------------

  class RouteEntry {
    const ifname: string
    const publicKey: string
    const gateway: Addr
    const connectionID: int
    var flags: bv8
    ghost const owner: RouteList  // the only list this entry may be in

    constructor (path: NetworkPath, owner: RouteList)
      ensures Val() == NewEntry(path)
      ensures this.owner == owner
    {
      ifname, publicKey, gateway, connectionID := path.ifname, path.publicKey, path.gateway, path.connectionID;
      flags := 0;
      this.owner := owner;
    }

    predicate CheckFlag(f: bv8)
      reads this
    {
      flags & f == f
    }

    ghost function Val(): Entry
      reads this
    {
      Entry(ifname, publicKey, gateway, connectionID,
            CheckFlag(RF_PENDING_ADD), CheckFlag(RF_PENDING_DEL), CheckFlag(RF_ACTIVE))
    }

    method SetFlag(f: bv8)
      modifies this
      ensures Val() == old(Val()).(pendingAdd := old(CheckFlag(RF_PENDING_ADD)) || f & RF_PENDING_ADD != 0,
                                   pendingDel := old(CheckFlag(RF_PENDING_DEL)) || f & RF_PENDING_DEL != 0,
                                   active := old(CheckFlag(RF_ACTIVE)) || f & RF_ACTIVE != 0)
    {
      flags := flags | f;
    }

    method ClearFlags(mask: bv8)
      modifies this
      ensures Val() == old(Val()).(pendingAdd := old(CheckFlag(RF_PENDING_ADD)) && mask & RF_PENDING_ADD == 0,
                                   pendingDel := old(CheckFlag(RF_PENDING_DEL)) && mask & RF_PENDING_DEL == 0,
                                   active := old(CheckFlag(RF_ACTIVE)) && mask & RF_ACTIVE == 0)
    {
      flags := flags & !mask;
    }
  }

  ghost function Vals(s: seq<RouteEntry>): (v: seq<Entry>)
    reads s
    ensures |v| == |s|
    ensures forall i :: 0 <= i < |s| ==> v[i] == s[i].Val()
  {
    seq(|s|, i requires 0 <= i < |s| reads s => s[i].Val())
  }

  // The objects that survive a merge.
  ghost function KeptObjects(s: seq<RouteEntry>): (r: seq<RouteEntry>)
    reads s
    ensures forall e :: e in r ==> e in s
  {
    if s == [] then []
    else KeptObjects(s[..|s| - 1]) + (if s[|s| - 1].CheckFlag(RF_PENDING_DEL) then [] else [s[|s| - 1]])
  }

  lemma {:induction false} KeptObjectsVals(s: seq<RouteEntry>)
    requires forall i, j :: 0 <= i < j < |s| ==> s[i] != s[j]
    ensures Vals(KeptObjects(s)) == Kept(Vals(s))
    ensures forall i, j :: 0 <= i < j < |KeptObjects(s)| ==> KeptObjects(s)[i] != KeptObjects(s)[j]
  {
    if s != [] {
      var h, e := s[..|s| - 1], s[|s| - 1];
      KeptObjectsVals(h);
      KeptAppend(Vals(h), e.Val());
      assert Vals(s) == Vals(h) + [e.Val()];
      assert e !in h;
    }
  }

  lemma KeptWellFormed(s: seq<RouteEntry>)
    requires (forall i, j :: 0 <= i < j < |s| ==> s[i] != s[j]) && WellFormed(Vals(s))
    ensures var r := KeptObjects(s);
            && Vals(r) == Kept(Vals(s)) && WellFormed(Vals(r))
            && (forall i, j :: 0 <= i < j < |r| ==> r[i] != r[j])
            && (forall i :: 0 <= i < |r| ==> r[i] in s)
  {
    KeptObjectsVals(s);
    KeptMembers(Vals(s));
  }

  lemma OnlyActive(v: seq<Entry>)
    requires WellFormed(v)
    ensures forall i :: 0 <= i < |v| ==> (v[i].active <==> GatewayOf(Active(v)) == Some(v[i].gateway))
  {
    forall i | 0 <= i < |v| ensures v[i].active <==> GatewayOf(Active(v)) == Some(v[i].gateway) {
      Unique(v, v[i]);
      if Active(v).Some? {
        Unique(v, Active(v).value);
      }
    }
  }

  lemma KeptActive(v: seq<Entry>)
    requires WellFormed(v)
    ensures WellFormed(Kept(v))
    ensures forall i :: 0 <= i < |Kept(v)| ==>
              (Kept(v)[i].active <==> GatewayOf(Active(v)) == Some(Kept(v)[i].gateway))
  {
    KeptMembers(v);
    forall i | 0 <= i < |Kept(v)|
      ensures Kept(v)[i].active <==> GatewayOf(Active(v)) == Some(Kept(v)[i].gateway)
    {
      Unique(v, Kept(v)[i]);
      if Active(v).Some? {
        Unique(v, Active(v).value);
      }
    }
  }

  // Comparing entries by identity is comparing them by gateway.
  lemma SameEntry(objects: seq<RouteEntry>, v: seq<Entry>, o: RouteEntry, r: RouteEntry?, e: Option<Entry>)
    requires |v| == |objects| && DistinctGateways(v)
    requires forall i :: 0 <= i < |v| ==> v[i].gateway == objects[i].gateway
    requires o in objects && (r != null ==> r in objects)
    requires GatewayOf(e) == if r == null then None else Some(r.gateway)
    ensures o == r <==> GatewayOf(e) == Some(o.gateway)
  {
    var i :| 0 <= i < |v| && objects[i] == o;
    if r != null {
      var j :| 0 <= j < |v| && objects[j] == r;
    }
  }

  // ---- The gateways of one destination ---------------------------------------------

  class RouteList {
    var list: seq<RouteEntry>
    var flags: bv16
    const groupID: int
    ghost const dest: Prefix  // the only map key this list may be under

    constructor (groupID: int, disabled: bool, ghost dest: Prefix)
      ensures list == [] && Valid()
      ensures View() == Group([], disabled, groupID) && this.dest == dest
    {
      list := [];
      flags := if disabled then RLF_DISABLED else 0;
      this.groupID := groupID;
      this.dest := dest;
    }

    ghost predicate Valid()
      reads this, list
    {
      Own() && WellFormed(Vals(list))
    }

    ghost predicate Own()
      reads this
    {
      && (forall i, j :: 0 <= i < j < |list| ==> list[i] != list[j])
      && (forall e :: e in list ==> e.owner == this)
    }

    ghost function View(): Group
      reads this, list
    {
      Group(Vals(list), Disabled(), groupID)
    }

    predicate Disabled()
      reads this
    {
      flags & RLF_DISABLED == RLF_DISABLED
    }

    method Enable()
      modifies this`flags
      ensures !Disabled()
    {
      flags := flags & !RLF_DISABLED;
    }

    method Pending() returns (add: nat, del: nat)
      ensures add == ToAdd(Vals(list)) && del == ToDelete(Vals(list))
    {
      add, del := 0, 0;
      ghost var v := Vals(list);
      for i := 0 to |list|
        invariant add == ToAdd(v[..i]) && del == ToDelete(v[..i])
      {
        assert v[..i + 1][..i] == v[..i];
        if list[i].CheckFlag(RF_PENDING_ADD) {
          add := add + 1;
        }
        if list[i].CheckFlag(RF_PENDING_DEL) {
          del := del + 1;
        }
      }
      assert v[..|list|] == v;
    }

    method ResetPending()
      requires Valid()
      modifies list
      ensures Valid()
      ensures Vals(list) == Settled(old(Vals(list)))
    {
      for i := 0 to |list|
        invariant forall j :: 0 <= j < i ==> list[j].Val() == old(list[j].Val()).(pendingAdd := false, pendingDel := false)
        invariant forall j :: i <= j < |list| ==> list[j].Val() == old(list[j].Val())
      {
        list[i].ClearFlags(RF_PENDING_ADD | RF_PENDING_DEL);
      }
    }

    method GetActive() returns (r: RouteEntry?)
      ensures r == null ==> Active(Vals(list)) == None
      ensures r != null ==> r in list && Active(Vals(list)) == Some(r.Val())
    {
      ghost var v := Vals(list);
      for i := 0 to |list|
        invariant forall j :: 0 <= j < i ==> !v[j].active
      {
        if list[i].CheckFlag(RF_ACTIVE) {
          FirstAt(v, (e: Entry) => e.active, i);
          return list[i];
        }
      }
      r := null;
    }

    method GetDefault() returns (r: RouteEntry?)
      ensures r == null ==> Default(Vals(list)) == None
      ensures r != null ==> r in list && Default(Vals(list)) == Some(r.Val())
    {
      r := GetActive();
      if r != null {
        return;
      }
      ghost var v := Vals(list);
      for i := 0 to |list|
        invariant forall j :: 0 <= j < i ==> v[j].pendingDel
      {
        if !list[i].CheckFlag(RF_PENDING_DEL) {
          FirstAt(v, (e: Entry) => !e.pendingDel, i);
          return list[i];
        }
      }
    }

    method Find(gateway: Addr) returns (r: RouteEntry?)
      ensures r == null ==> FindGateway(Vals(list), gateway) == None
      ensures r != null ==> r in list && FindGateway(Vals(list), gateway) == Some(r.Val())
    {
      ghost var v := Vals(list);
      for i := 0 to |list|
        invariant forall j :: 0 <= j < i ==> v[j].gateway != gateway
      {
        if list[i].gateway == gateway {
          FirstAt(v, (e: Entry) => e.gateway == gateway, i);
          return list[i];
        }
      }
      r := null;
    }

    method Add(newRoute: RouteEntry)
      requires Valid()
      requires newRoute !in list && newRoute.owner == this && !newRoute.Val().active
      modifies this`list, list, newRoute
      ensures Valid()
      ensures Vals(list) == Added(old(Vals(list)), old(newRoute.Val()))
      ensures list == old(list) || list == old(list) + [newRoute]
    {
      ghost var v := Vals(list);
      AddedKeeps(v, newRoute.Val());
      for i := 0 to |list|
        invariant forall j :: 0 <= j < i ==> v[j].gateway != newRoute.gateway
        invariant list == old(list) && Vals(list) == v && newRoute.Val() == old(newRoute.Val())
      {
        if list[i].gateway == newRoute.gateway {
          FirstAt(v, (e: Entry) => e.gateway == newRoute.gateway, i);
          hide RouteList.Own, WellFormed;
          Unlike(i);
          list[i].ClearFlags(RF_PENDING_DEL);
          assert Vals(list) == Unmark(v, newRoute.gateway);
          return;
        }
      }
      hide WellFormed, RouteEntry.CheckFlag;
      newRoute.SetFlag(RF_PENDING_ADD);
      newRoute.ClearFlags(RF_PENDING_DEL);
      list := list + [newRoute];
      assert Vals(list) == v + [newRoute.Val()];
    }

    // No other place has the entry or the gateway of place i.
    lemma Unlike(i: nat)
      requires Valid() && i < |list|
      ensures forall j :: 0 <= j < |list| && j != i ==> list[j] != list[i] && list[j].gateway != list[i].gateway
    {
      forall j | 0 <= j < |list| && j != i ensures list[j].gateway != list[i].gateway {
        assert Vals(list)[j].gateway == list[j].gateway && Vals(list)[i].gateway == list[i].gateway;
      }
    }

    method MarkDel(gateway: Addr)
      requires Valid()
      modifies list
      ensures Valid()
      ensures Vals(list) == Marked(old(Vals(list)), gateway)
    {
      ghost var v := Vals(list);
      MarkedKeeps(v, gateway);
      for i := 0 to |list|
        invariant forall j :: 0 <= j < i ==> v[j].gateway != gateway
        invariant Vals(list) == v
      {
        if list[i].gateway == gateway {
          list[i].SetFlag(RF_PENDING_DEL);
          assert Vals(list) == Marked(v, gateway);
          return;
        }
      }
      assert Vals(list) == Marked(v, gateway);
    }

    method Flush()
      requires Valid()
      modifies list
      ensures Valid()
      ensures Vals(list) == AllMarked(old(Vals(list)))
    {
      for i := 0 to |list|
        invariant forall j :: 0 <= j < i ==> list[j].Val() == old(list[j].Val()).(pendingDel := true)
        invariant forall j :: i <= j < |list| ==> list[j].Val() == old(list[j].Val())
      {
        list[i].SetFlag(RF_PENDING_DEL);
      }
    }

    // `r` is the entry object of the value `e`, on or off this list.
    ghost predicate Names(r: RouteEntry?, e: Option<Entry>)
      reads this
    {
      && (if r == null then e.None? else e.Some? && e.value.gateway == r.gateway && e.value.ifname == r.ifname)
      && forall i :: 0 <= i < |list| ==> (list[i] == r <==> GatewayOf(e) == Some(list[i].gateway))
    }

    // Moves the active flag, and the kernel route with it. `oldRoute` may have left the list already.
    method Reroute(newRoute: RouteEntry?, oldRoute: RouteEntry?, destination: Prefix, k: Kernel,
                   ghost next: Option<Entry>, ghost prev: Option<Entry>)
      returns (k': Kernel)
      requires Valid() && Names(newRoute, next) && Names(oldRoute, prev)
      requires newRoute == oldRoute <==> GatewayOf(next) == GatewayOf(prev)
      requires forall i :: 0 <= i < |list| ==> (list[i].Val().active <==> GatewayOf(prev) == Some(list[i].gateway))
      modifies newRoute, oldRoute
      ensures Valid()
      ensures Vals(list) == Activated(old(Vals(list)), GatewayOf(next))
      ensures k' == Write(k, destination,
                          MovedSlot(Lookup(k.table, destination), k.links, Shadowed(k.table, destination), prev, next))
    {
      ghost var v := Vals(list);
      ActivatedKeeps(v, GatewayOf(next));
      PutSame(k.table, destination);
      hide WellFormed, Lookup, Put;
      k' := k;
      if newRoute == oldRoute {
        assert Vals(list) == Activated(v, GatewayOf(next));
        return;
      }
      var ok: bool;
      if newRoute == null {
        k', ok := RouteDel(k, oldRoute.ifname, destination);
        oldRoute.ClearFlags(RF_ACTIVE);
      } else if oldRoute == null {
        k', ok := RouteAdd(k, newRoute.ifname, None, destination);
        newRoute.SetFlag(RF_ACTIVE);
      } else {
        k', ok := RouteReplace(k, newRoute.ifname, None, destination);
        oldRoute.ClearFlags(RF_ACTIVE);
        newRoute.SetFlag(RF_ACTIVE);
      }
      forall i | 0 <= i < |list| ensures list[i].Val() == Activated(v, GatewayOf(next))[i] {
        assert list[i].gateway == v[i].gateway;
      }
      assert Vals(list) == Activated(v, GatewayOf(next));
    }

    lemma NamesFrom(objects: seq<RouteEntry>, v: seq<Entry>, r: RouteEntry?, e: Option<Entry>)
      requires |v| == |objects| && DistinctGateways(v)
      requires forall i :: 0 <= i < |v| ==> v[i].gateway == objects[i].gateway
      requires r != null ==> r in objects
      requires if r == null then e.None? else e.Some? && e.value.gateway == r.gateway && e.value.ifname == r.ifname
      requires forall i :: 0 <= i < |list| ==> list[i] in objects
      ensures Names(r, e)
    {
      forall i | 0 <= i < |list| ensures list[i] == r <==> GatewayOf(e) == Some(list[i].gateway) {
        SameEntry(objects, v, list[i], r, e);
      }
    }

    // Moves the active flag to one entry of the list; the kernel is not touched.
    method MakeActive(route: RouteEntry)
      requires Valid() && route in list
      modifies list
      ensures Valid()
      ensures Vals(list) == Activated(old(Vals(list)), Some(route.gateway))
    {
      hide WellFormed, Activated, RouteEntry.CheckFlag, RouteList.Own;
      ghost var v := Vals(list);
      var active := GetActive();
      Activating(v, active, route);
      Flip(active, route);
      assert Vals(list) == Activated(v, Some(route.gateway));
    }

    lemma Activating(v: seq<Entry>, active: RouteEntry?, route: RouteEntry)
      requires Valid() && route in list && v == Vals(list)
      requires if active == null then Active(v).None? else active in list && Active(v) == Some(active.Val())
      ensures WellFormed(Activated(v, Some(route.gateway))) && |Activated(v, Some(route.gateway))| == |v|
      ensures forall i :: 0 <= i < |v| ==>
                Activated(v, Some(route.gateway))[i] == v[i].(active := list[i] == route || (list[i] != active && v[i].active))
    {
      NamesFrom(list, v, active, Active(v));
      NamesFrom(list, v, route, Some(route.Val()));
      Flipped(list, v, active, route, Some(route.gateway));
      ActivatedKeeps(v, Some(route.gateway));
    }

    method Flip(active: RouteEntry?, route: RouteEntry)
      modifies active, route
      ensures forall i :: 0 <= i < |list| ==>
                list[i].Val() == old(list[i].Val()).(active := list[i] == route || (list[i] != active && old(list[i].Val()).active))
    {
      if active != null {
        active.ClearFlags(RF_ACTIVE);
      }
      route.SetFlag(RF_ACTIVE);
    }

    // Clearing the flag of one entry and setting that of another, as identities and as gateways.
    lemma Flipped(objects: seq<RouteEntry>, v: seq<Entry>, active: RouteEntry?, route: RouteEntry?, gw: Option<Addr>)
      requires |objects| == |v| && WellFormed(v)
      requires forall i :: 0 <= i < |v| ==> (objects[i] == active <==> GatewayOf(Active(v)) == Some(v[i].gateway))
      requires forall i :: 0 <= i < |v| ==> (objects[i] == route <==> gw == Some(v[i].gateway))
      ensures forall i :: 0 <= i < |v| ==>
                Activated(v, gw)[i] == v[i].(active := objects[i] == route || (objects[i] != active && v[i].active))
    {
      OnlyActive(v);
    }

    // The new gateway of a merge: listed, and not marked for deletion.
    method Choose(newgw: Option<Addr>) returns (r: RouteEntry?)
      ensures r == null ==> Target(Vals(list), newgw) == None
      ensures r != null ==> r in list && Target(Vals(list), newgw) == Some(r.Val())
    {
      r := null;
      if newgw.Some? {
        r := Find(newgw.value);
        if r != null && r.CheckFlag(RF_PENDING_DEL) {
          r := null;
        }
      }
    }

    // Rebuilds the list without the entries marked for deletion.
    method DropDeleted()
      requires Valid()
      modifies this`list
      ensures Valid()
      ensures forall i :: 0 <= i < |list| ==> list[i] in old(list)
      ensures Vals(list) == Kept(old(Vals(list)))
    {
      var newList: seq<RouteEntry> := [];
      for i := 0 to |list|
        invariant newList == KeptObjects(list[..i])
      {
        assert list[..i + 1][..i] == list[..i];
        if !list[i].CheckFlag(RF_PENDING_DEL) {
          newList := newList + [list[i]];
        }
      }
      assert list[..|list|] == list;
      KeptWellFormed(list);
      hide WellFormed, Kept, KeptObjects;
      list := newList;
    }

    method Commit()
      requires Valid()
      modifies this`list, list
      ensures Valid()
      ensures forall i :: 0 <= i < |list| ==> list[i] in old(list)
      ensures Vals(list) == Settled(Kept(old(Vals(list))))
      ensures forall i :: 0 <= i < |list| ==>
                (list[i].Val().active <==> GatewayOf(Active(old(Vals(list)))) == Some(list[i].gateway))
    {
      KeptActive(Vals(list));
      DropDeleted();
      ResetPending();
    }

    // Makes the first entry on the given interface active, if there is one.
    method Adopt(ifname: string) returns (r: RouteEntry?)
      requires Valid()
      modifies list
      ensures Valid()
      ensures r == null ==> FindInterface(old(Vals(list)), ifname) == None && Vals(list) == old(Vals(list))
      ensures r != null ==>
                && r in list
                && FindInterface(old(Vals(list)), ifname) == Some(old(r.Val()))
                && Vals(list) == Activated(old(Vals(list)), Some(r.gateway))
    {
      ghost var v := Vals(list);
      for i := 0 to |list|
        invariant Vals(list) == v && Valid()
        invariant forall j :: 0 <= j < i ==> v[j].ifname != ifname
      {
        if list[i].ifname == ifname {
          FirstAt(v, (e: Entry) => e.ifname == ifname, i);
          assert v[i] == list[i].Val();
          MakeActive(list[i]);
          return list[i];
        }
      }
      r := null;
    }

    // First commit of a group, up to the deferred reset of its pending marks. `found` is what the
    // route search answered.
    method InstallRoute(destination: Prefix, k: Kernel)
      returns (k': Kernel, status: Option<RouteStatus>, ghost found: Option<string>)
      requires Valid()
      modifies list
      ensures Valid()
      ensures IsSearch(k.table, destination, found)
      ensures Vals(list) == Installed(old(Vals(list)), found)
      ensures k' == Write(k, destination, SetUpSlot(Lookup(k.table, destination), k.links, old(Vals(list)), found))
      ensures status == SetUpStatus(destination, groupID, old(Vals(list)), k.links, found)
    {
      var conflict := RouteSearch(k, destination);
      found := conflict;
      k', status := k, None;
      PutSame(k.table, destination);
      if conflict.None? {
        var route := GetDefault();
        if route != null {
          var ok;
          MakeActive(route);
          k', ok := RouteAdd(k, route.ifname, None, destination);
          status := Some(RouteStatus(destination, route.connectionID, groupID, ok));
        }
      } else {
        var route := Adopt(conflict.value);
        if route != null {
          status := Some(RouteStatus(destination, route.connectionID, groupID, true));
        }
      }
    }

    method SetRoute(destination: Prefix, k: Kernel)
      returns (k': Kernel, status: Option<RouteStatus>, ghost found: Option<string>)
      requires Valid()
      modifies list
      ensures Valid()
      ensures IsSearch(k.table, destination, found)
      ensures Vals(list) == SetUp(old(Vals(list)), found)
      ensures k' == Write(k, destination, SetUpSlot(Lookup(k.table, destination), k.links, old(Vals(list)), found))
      ensures status == SetUpStatus(destination, groupID, old(Vals(list)), k.links, found)
    {
      k', status, found := InstallRoute(destination, k);
      ResetPending();
    }

    method ClearRoute(destination: Prefix, k: Kernel) returns (k': Kernel)
      requires Valid()
      modifies list
      ensures Valid()
      ensures Vals(list) == Cleared(old(Vals(list)))
      ensures k' == Write(k, destination, ClearedSlot(Lookup(k.table, destination), k.links, old(Vals(list))))
    {
      ghost var v := Vals(list);
      var route := GetActive();
      k' := k;
      ActivatedKeeps(v, None);
      if route == null {
        assert Activated(v, None) == v by {
          forall i | 0 <= i < |v| ensures !v[i].active { assert v[i] in v; }
        }
        PutSame(k.table, destination);
      } else {
        var ok;
        k', ok := RouteDel(k, route.ifname, destination);
        route.ClearFlags(RF_ACTIVE);
        OnlyActive(v);
        forall i | 0 <= i < |list| ensures list[i].Val() == v[i].(active := false) {
          SameEntry(list, v, list[i], route, Active(v));
        }
        assert Vals(list) == Activated(v, None);
      }
      ResetPending();
    }

    method MergeRoutes(destination: Prefix, newgw: Option<Addr>, k: Kernel) returns (k': Kernel)
      requires Valid()
      modifies this`list, list
      ensures Valid()
      ensures forall i :: 0 <= i < |list| ==> list[i] in old(list)
      ensures Vals(list) == Merged(old(Vals(list)), newgw)
      ensures k' == Write(k, destination,
                          MovedSlot(Lookup(k.table, destination), k.links, Shadowed(k.table, destination),
                                    Active(old(Vals(list))), Target(old(Vals(list)), newgw)))
    {
      ghost var v := Vals(list);
      ghost var objects := list;
      var activeRoute := GetActive();
      var newRoute := Choose(newgw);
      if newRoute != null {
        SameEntry(list, v, newRoute, activeRoute, Active(v));
      }
      hide WellFormed, Write, MovedSlot;
      Commit();
      NamesFrom(objects, v, newRoute, Target(v, newgw));
      NamesFrom(objects, v, activeRoute, Active(v));
      k' := Reroute(newRoute, activeRoute, destination, k, Target(v, newgw), Active(v));
    }

    // The part of ServiceMonitor.Reroute that concerns one list.
    method RerouteTo(gw: Option<Addr>, destination: Prefix, k: Kernel) returns (k': Kernel)
      requires Valid()
      modifies list
      ensures Valid()
      ensures Vals(list) == Rerouted(old(Vals(list)), gw)
      ensures k' == Write(k, destination,
                          MovedSlot(Lookup(k.table, destination), k.links, Shadowed(k.table, destination),
                                    Active(old(Vals(list))), Chosen(old(Vals(list)), gw)))
    {
      ghost var v := Vals(list);
      var currRoute := GetActive();
      var newRoute: RouteEntry? := null;
      if gw.Some? {
        newRoute := Find(gw.value);
      }
      if newRoute != null {
        SameEntry(list, v, newRoute, currRoute, Active(v));
      }
      OnlyActive(v);
      hide WellFormed, Write, MovedSlot;
      NamesFrom(list, v, newRoute, Chosen(v, gw));
      NamesFrom(list, v, currRoute, Active(v));
      k' := Reroute(newRoute, currRoute, destination, k, Chosen(v, gw), Active(v));
    }

    // Which of the three ways of committing applies.
    method NextPhase() returns (phase: Phase)
      ensures phase == PhaseOf(Vals(list))
    {
      var add, del := Pending();
      CountsTell(Vals(list));
      var count := |list|;
      if add == 0 && del == 0 {
        phase := Idle;
      } else if add == count && del == 0 {
        phase := Set;
      } else if del == count && add == 0 {
        phase := Clear;
      } else {
        phase := Merge;
      }
    }

    // One group's share of a commit.
    method ApplyPending(ip: Prefix, best: Option<Addr>, k: Kernel)
      returns (k': Kernel, keep: bool, status: Option<RouteStatus>, ghost found: Option<string>)
      requires Valid() && !Disabled()
      modifies this`list, list
      ensures Valid()
      ensures forall i :: 0 <= i < |list| ==> list[i] in old(list)
      ensures IsSearch(k.table, ip, found)
      ensures Applied(old(View()), best, found) == if keep then Some(View()) else None
      ensures k' == Write(k, ip, AppliedSlot(Lookup(k.table, ip), k.links, old(View()), best, found))
      ensures status == StatusOf(old(View()), ip, k.links, found)
    {
      hide WellFormed, Settled, SetUp, SetUpSlot, Merged, MovedSlot, Cleared, ClearedSlot, SetUpStatus, Target, Active;
      var phase := NextPhase();
      if phase == Set {
        k', status, found := SetRoute(ip, k);
        return k', true, status, found;
      }
      found := SearchAnswers(k.table, ip);
      if phase == Merge {
        k' := MergeRoutes(ip, best, k);
      } else if phase == Clear {
        k' := ClearRoute(ip, k);
      } else {
        PutSame(k.table, ip);
        k' := k;
      }
      keep, status := phase != Clear, None;
    }
  }

  // ---- The service monitor --------------------------------------------------------------

  class ServiceMonitor {
    var routes: map<Prefix, RouteList>
    const groupID: int
    var activeConnectionID: int
    ghost var Contents: Monitor   // the groups as values
    ghost var Repr: set<object>   // the lists and their entries

    constructor (gid: int)
      ensures Valid() && Contents == map[] && activeConnectionID == 0 && groupID == gid && Repr == {}
    {
      routes := map[];
      groupID := gid;
      activeConnectionID := 0;
      Contents, Repr := map[], {};
    }

    ghost predicate Valid()
      reads this, Repr
    {
      Represents(Contents)
    }

    // The lists are the groups of `m`.
    ghost predicate Represents(m: Monitor)
      reads `routes, `Repr, Repr
    {
      && this !in Repr
      && routes.Keys == m.Keys
      && forall p :: p in routes ==> ListIs(p, m[p])
    }

    // The list of `p` is the group `g`; a disabled one has not been applied.
    ghost predicate ListIs(p: Prefix, g: Group)
      requires p in routes
      reads `routes, `Repr, Repr
    {
      OwnList(p) && routes[p].View() == g && (g.disabled ==> Unapplied(g.entries))
    }

    // Every list belongs to its key and every entry to its list, so no two share an object.
    ghost predicate OwnList(p: Prefix)
      requires p in routes
      reads `routes, `Repr, Repr
    {
      && routes[p] in Repr && (forall i :: 0 <= i < |routes[p].list| ==> routes[p].list[i] in Repr)
      && routes[p].dest == p && routes[p].Valid()
    }

    lemma Unfold(p: Prefix, g: Group)
      requires p in routes && ListIs(p, g)
      ensures OwnList(p) && routes[p].View() == g && (g.disabled ==> Unapplied(g.entries))
    {
    }

    lemma Fold(p: Prefix)
      requires p in routes && OwnList(p) && (routes[p].Disabled() ==> Unapplied(Vals(routes[p].list)))
      ensures ListIs(p, routes[p].View())
    {
    }

    // Working on one list, and on fresh objects, leaves the others as they were.
    twostate lemma OthersKept(ip: Prefix)
      requires old(this !in Repr) && routes == old(routes) && old(Repr) <= Repr && ip in routes
      requires old(OwnList(ip))
      requires forall o: RouteList :: o in old(Repr) && o != routes[ip] ==> unchanged(o)
      requires forall o: RouteEntry :: o in old(Repr) && o.owner != routes[ip] ==> unchanged(o)
      ensures forall p, g :: p in routes && p != ip && old(ListIs(p, g)) ==>
                ListIs(p, g) && routes[p].list == old(routes[p].list)
    {
      forall p, g | p in routes && p != ip && old(ListIs(p, g))
        ensures ListIs(p, g) && routes[p].list == old(routes[p].list)
      {
        var rl := routes[p];
        assert old(OwnList(p));
        assert unchanged(rl);
        forall i | 0 <= i < |rl.list| ensures rl.list[i].Val() == old(rl.list[i].Val()) {
          assert rl.list[i] in rl.list;
          assert unchanged(rl.list[i]);
        }
        assert Vals(rl.list) == old(Vals(rl.list));
      }
    }

    // New objects, and lists under new keys, leave those that were there as they were.
    twostate lemma OldKept()
      requires old(Repr) <= Repr && forall o :: o in old(Repr) ==> unchanged(o)
      requires forall p :: p in old(routes) ==> p in routes && routes[p] == old(routes)[p]
      ensures forall p, g :: p in old(routes) && old(ListIs(p, g)) ==>
                ListIs(p, g) && routes[p].list == old(routes[p].list)
    {
      forall p, g | p in old(routes) && old(ListIs(p, g))
        ensures ListIs(p, g) && routes[p].list == old(routes[p].list)
      {
        var rl := routes[p];
        assert unchanged(rl);
        assert forall i :: 0 <= i < |rl.list| ==> unchanged(rl.list[i]);
        assert Vals(rl.list) == old(Vals(rl.list));
      }
    }

    lemma Recorded(m: Monitor, ip: Prefix, g: Group)
      requires this !in Repr && ip in routes && routes.Keys == m.Keys + {ip} && ListIs(ip, g)
      requires forall p :: p in routes && p != ip ==> ListIs(p, m[p])
      ensures Represents(m[ip := g])
    {
    }

    method ApplyAt(ip: Prefix, best: Option<Addr>, k: Kernel, ghost m: Monitor)
      returns (k': Kernel, keep: bool, status: Option<RouteStatus>, ghost found: Option<string>, ghost g: Group)
      requires Represents(m) && ip in m && !m[ip].disabled
      modifies routes[ip], routes[ip].list
      ensures Represents(m[ip := g])
      ensures forall p :: p in routes && p != ip ==> routes[p].list == old(routes[p].list)
      ensures forall i :: 0 <= i < |routes[ip].list| ==> routes[ip].list[i] in old(routes[ip].list)
      ensures IsSearch(k.table, ip, found)
      ensures Applied(m[ip], best, found) == if keep then Some(g) else None
      ensures k' == Write(k, ip, AppliedSlot(Lookup(k.table, ip), k.links, m[ip], best, found))
      ensures status == StatusOf(m[ip], ip, k.links, found)
    {
      hide ServiceMonitor.ListIs, Applied, AppliedSlot, StatusOf, IsSearch, Write, Lookup, WellFormed, Unapplied;
      var rl := routes[ip];
      Unfold(ip, m[ip]);
      k', keep, status, found := rl.ApplyPending(ip, best, k);
      OthersKept(ip);
      g := rl.View();
      Fold(ip);
      Recorded(m, ip, g);
    }

    // One turn of the loop of Apply: a disabled list is passed over.
    method VisitAt(ip: Prefix, best: Option<Addr>, k: Kernel, ghost m: Monitor)
      returns (k': Kernel, keep: bool, status: Option<RouteStatus>, ghost found: Option<string>, ghost g: Group)
      requires Represents(m) && ip in m && InRepr(ip)
      modifies routes[ip], routes[ip].list
      ensures Represents(m[ip := g])
      ensures forall p :: p in routes && p != ip ==> routes[p].list == old(routes[p].list)
      ensures forall i :: 0 <= i < |routes[ip].list| ==> routes[ip].list[i] in old(routes[ip].list)
      ensures IsSearch(k.table, ip, found)
      ensures Applied(m[ip], best, found) == if keep then Some(g) else None
      ensures k' == Write(k, ip, AppliedSlot(Lookup(k.table, ip), k.links, m[ip], best, found))
      ensures status == StatusOf(m[ip], ip, k.links, found)
    {
      hide ServiceMonitor.Represents, Applied, AppliedSlot, StatusOf, IsSearch;
      var disabled := IsDisabled(ip, m);
      if disabled {
        found := SearchAnswers(k.table, ip);
        SkippedAt(m[ip], ip, Lookup(k.table, ip), k.links, best, found);
        PutSame(k.table, ip);
        k', keep, status, g := k, true, None, m[ip];
        assert m[ip := g] == m;
      } else {
        k', keep, status, found, g := ApplyAt(ip, best, k, m);
      }
    }

    method RerouteAt(ip: Prefix, gw: Option<Addr>, k: Kernel, ghost m: Monitor) returns (k': Kernel)
      requires Represents(m) && ip in m && !m[ip].disabled
      modifies routes[ip].list
      ensures Represents(m[ip := m[ip].(entries := Rerouted(m[ip].entries, gw))])
      ensures k' == Write(k, ip, MovedSlot(Lookup(k.table, ip), k.links, Shadowed(k.table, ip),
                                           Active(m[ip].entries), Chosen(m[ip].entries, gw)))
    {
      hide ServiceMonitor.ListIs, Rerouted, MovedSlot, Chosen, Active, Write, Lookup, WellFormed, Unapplied;
      Unfold(ip, m[ip]);
      k' := routes[ip].RerouteTo(gw, ip, k);
      OthersKept(ip);
      Fold(ip);
      Recorded(m, ip, m[ip].(entries := Rerouted(m[ip].entries, gw)));
    }

    method ClearAt(ip: Prefix, k: Kernel, ghost m: Monitor) returns (k': Kernel)
      requires Represents(m) && ip in m && !m[ip].disabled
      modifies routes[ip].list
      ensures Represents(m[ip := m[ip].(entries := Cleared(m[ip].entries))])
      ensures k' == Write(k, ip, ClearedSlot(Lookup(k.table, ip), k.links, m[ip].entries))
    {
      hide ServiceMonitor.ListIs, Cleared, ClearedSlot, Write, Lookup, WellFormed, Unapplied;
      Unfold(ip, m[ip]);
      k' := routes[ip].ClearRoute(ip, k);
      OthersKept(ip);
      Fold(ip);
      Recorded(m, ip, m[ip].(entries := Cleared(m[ip].entries)));
    }

    method FlushAt(ip: Prefix, ghost m: Monitor)
      requires Represents(m) && ip in m && !m[ip].disabled
      modifies routes[ip].list
      ensures Represents(m[ip := m[ip].(entries := AllMarked(m[ip].entries))])
    {
      hide ServiceMonitor.ListIs, AllMarked, WellFormed, Unapplied;
      Unfold(ip, m[ip]);
      routes[ip].Flush();
      OthersKept(ip);
      Fold(ip);
      Recorded(m, ip, m[ip].(entries := AllMarked(m[ip].entries)));
    }

    method EnableAt(ip: Prefix, ghost m: Monitor)
      requires Represents(m) && ip in m && m[ip].disabled
      modifies routes[ip]
      ensures Represents(m[ip := m[ip].(disabled := false)])
      ensures forall p :: p in routes ==> routes[p].list == old(routes[p].list)
    {
      hide ServiceMonitor.ListIs, WellFormed, Unapplied;
      Unfold(ip, m[ip]);
      routes[ip].Enable();
      OthersKept(ip);
      Fold(ip);
      Recorded(m, ip, m[ip].(disabled := false));
    }

    method NewRoute(netpath: NetworkPath, ip: Prefix, ghost m: Monitor) returns (e: RouteEntry)
      requires Represents(m) && ip in m
      modifies this`Repr
      ensures Represents(m) && InRepr(ip) && fresh(e) && Repr == old(Repr) + {e}
      ensures e.owner == routes[ip] && e.Val() == NewEntry(netpath)
    {
      hide ServiceMonitor.ListIs;
      e := new RouteEntry(netpath, routes[ip]);
      Repr := Repr + {e};
      OldKept();
      Unfold(ip, m[ip]);
    }

    method AddAt(e: RouteEntry, ip: Prefix, ghost m: Monitor)
      requires Represents(m) && ip in m && e.owner == routes[ip] && e !in routes[ip].list && e in Repr
      requires !e.Val().pendingAdd && !e.Val().pendingDel && !e.Val().active
      modifies routes[ip], routes[ip].list, e
      ensures Represents(m[ip := m[ip].(entries := Added(m[ip].entries, old(e.Val())))])
      ensures forall p :: p in routes ==> old(routes[p].list) <= routes[p].list && (p != ip ==> routes[p].list == old(routes[p].list))
    {
      hide ServiceMonitor.ListIs, Added, WellFormed, Unapplied;
      Unfold(ip, m[ip]);
      AddedKeeps(m[ip].entries, e.Val());
      routes[ip].Add(e);
      OthersKept(ip);
      Fold(ip);
      Recorded(m, ip, m[ip].(entries := Added(m[ip].entries, old(e.Val()))));
    }

    method MarkAt(gateway: Addr, ip: Prefix, ghost m: Monitor)
      requires Represents(m) && ip in m
      modifies routes[ip].list
      ensures Represents(m[ip := m[ip].(entries := Marked(m[ip].entries, gateway))])
    {
      hide ServiceMonitor.ListIs, Marked, WellFormed, Unapplied;
      Unfold(ip, m[ip]);
      MarkedKeeps(m[ip].entries, gateway);
      routes[ip].MarkDel(gateway);
      OthersKept(ip);
      Fold(ip);
      Recorded(m, ip, m[ip].(entries := Marked(m[ip].entries, gateway)));
    }

    method CreateList(ip: Prefix, gid: int, disabled: bool, ghost m: Monitor)
      requires Represents(m) && ip !in m
      modifies this`routes, this`Repr
      ensures Represents(m[ip := Group([], disabled, gid)]) && InRepr(ip)
      ensures fresh(Repr - old(Repr)) && fresh(routes[ip]) && routes[ip].list == []
      ensures ip !in old(routes) && routes == old(routes)[ip := routes[ip]]
    {
      hide ServiceMonitor.ListIs;
      var rl := new RouteList(gid, disabled, ip);
      routes, Repr := routes[ip := rl], Repr + {rl};
      OldKept();
      Fold(ip);
      Recorded(m, ip, Group([], disabled, gid));
    }

    method Forget(deleteIPs: set<Prefix>, ghost m: Monitor)
      requires Represents(m)
      modifies this`routes
      ensures Represents(m - deleteIPs) && routes == old(routes) - deleteIPs
    {
      routes := routes - deleteIPs;
    }

    method Has(ip: Prefix, ghost m: Monitor) returns (b: bool)
      requires Represents(m)
      ensures b <==> ip in m
      ensures b ==> InRepr(ip)
    {
      b := ip in routes;
      assert b ==> ListIs(ip, m[ip]);
    }

    method IsDisabled(ip: Prefix, ghost m: Monitor) returns (b: bool)
      requires Represents(m) && ip in m
      ensures InRepr(ip) && b == m[ip].disabled
    {
      Unfold(ip, m[ip]);
      b := routes[ip].Disabled();
    }

    method Keys(ghost m: Monitor) returns (ks: set<Prefix>)
      requires Represents(m)
      ensures ks == m.Keys == routes.Keys && this !in Repr
    {
      ks := routes.Keys;
    }

    // The objects of one list may be modified by an operation on the monitor.
    ghost predicate InRepr(ip: Prefix)
      reads this, Repr
    {
      && this !in Repr && ip in routes && routes[ip] in Repr
      && forall i :: 0 <= i < |routes[ip].list| ==> routes[ip].list[i] in Repr
    }

    lemma ContentsAre()
      requires Valid()
      ensures this !in Repr && routes.Keys == Contents.Keys
      ensures forall p :: p in routes ==> Contents[p].entries == Vals(routes[p].list) && WellFormed(Contents[p].entries)
    {
      forall p | p in routes
        ensures Contents[p].entries == Vals(routes[p].list) && WellFormed(Contents[p].entries)
      {
        Unfold(p, Contents[p]);
      }
    }

    lemma InReprOf(ip: Prefix, m: Monitor)
      requires Represents(m) && ip in m
      ensures InRepr(ip)
    {
      Unfold(ip, m[ip]);
    }

    // One turn of the loop of Reroute.
    method RerouteVisit(ip: Prefix, gw: Option<Addr>, k: Kernel, ghost m: Monitor)
      returns (k': Kernel, ghost found: Option<string>)
      requires Represents(m) && ip in m && InRepr(ip)
      modifies routes[ip].list
      ensures Represents(m[ip := ReroutedGroup(m[ip], gw)])
      ensures IsSearch(k.table, ip, found)
      ensures k' == Write(k, ip, ReroutedSlot(Lookup(k.table, ip), k.links, m[ip], gw, found))
    {
      hide ServiceMonitor.Represents, Rerouted, MovedSlot, Active, Chosen;
      found := SearchAnswers(k.table, ip);
      var disabled := IsDisabled(ip, m);
      if disabled {
        PutSame(k.table, ip);
        k' := k;
        assert m[ip := m[ip]] == m;
      } else {
        k' := RerouteAt(ip, gw, k, m);
      }
    }

    // ---- The operations of the router on one monitor ----

    // Lists and entries that are there stay the same objects; at most a new entry comes after them.
    method Add(netpath: NetworkPath, ip: Prefix, disabled: bool)
      requires Valid()
      modifies this`routes, this`Repr, this`Contents, Repr
      ensures Valid() && fresh(Repr - old(Repr))
      ensures Contents == AddedTo(old(Contents), netpath, ip, disabled)
      ensures forall p :: p in old(routes) ==> p in routes && routes[p] == old(routes)[p] && old(routes[p].list) <= routes[p].list
      ensures forall p :: p in routes && p !in old(routes) ==> fresh(routes[p])
    {
      hide ServiceMonitor.Represents;
      ghost var m := Contents;
      var known := Has(ip, m);
      if !known {
        CreateList(ip, netpath.groupID, disabled, m);
        m := m[ip := Group([], disabled, netpath.groupID)];
      }
      var e := NewRoute(netpath, ip, m);
      AddAt(e, ip, m);
      Contents := m[ip := m[ip].(entries := Added(m[ip].entries, NewEntry(netpath)))];
    }

    method Del(netpath: NetworkPath, ip: Prefix) returns (ok: bool)
      requires Valid()
      modifies this`Contents, Repr
      ensures Valid()
      ensures ok <==> ip in old(Contents)
      ensures Contents == MarkedIn(old(Contents), netpath, ip)
      ensures forall p :: p in routes ==> routes[p].list == old(routes[p].list)
    {
      hide ServiceMonitor.Represents;
      ok := Has(ip, Contents);
      if ok {
        MarkAt(netpath.gateway, ip, Contents);
        Contents := MarkedIn(Contents, netpath, ip);
      }
    }

    method HasAddress(ip: Prefix) returns (b: bool)
      requires Valid()
      ensures b <==> ip in Contents && Live(Contents[ip])
    {
      if ip !in routes || routes[ip].Disabled() {
        return false;
      }
      var add, del := routes[ip].Pending();
      CountsTell(Vals(routes[ip].list));
      b := !(add == 0 && del == |routes[ip].list|);
    }

    // Remembers the selected connection, and reports it if it is another one.
    method Announce(connID: int, reason: string) returns (reports: seq<Report>)
      requires Valid()
      modifies this`activeConnectionID
      ensures Valid() && activeConnectionID == connID
      ensures reports == Reported(old(activeConnectionID), connID, groupID, reason)
    {
      reports := [];
      if activeConnectionID != connID {
        reports := [Report(activeConnectionID, connID, groupID, reason)];
        activeConnectionID := connID;
      }
    }

    // The operations below visit the map in an arbitrary order; their results do not depend on it.

    method Flush()
      requires Valid()
      modifies this`routes, this`Contents, Repr
      ensures Valid()
      ensures Contents == Flushed(old(Contents))
      ensures routes.Keys <= old(routes).Keys
      ensures forall p :: p in routes ==> routes[p] == old(routes)[p] && routes[p].list == old(routes[p].list)
    {
      hide ServiceMonitor.Represents, Flushing, Flushed, AllMarked;
      ghost var was, m := Contents, Contents;
      var deleteIPs: set<Prefix> := {};
      var todo := Keys(m);
      FlushStarts(was);
      while todo != {}
        invariant Represents(m) && routes == old(routes) && Repr == old(Repr) && m.Keys == was.Keys && todo <= was.Keys
        invariant forall p :: p in routes ==> routes[p].list == old(routes[p].list)
        invariant Flushing(was, m, deleteIPs, todo)
      {
        var ip :| ip in todo;
        FlushContinues(was, m, deleteIPs, todo, ip);
        var disabled := IsDisabled(ip, m);
        if disabled {
          deleteIPs := deleteIPs + {ip};
        } else {
          FlushAt(ip, m);
          m := m[ip := m[ip].(entries := AllMarked(m[ip].entries))];
        }
        todo := todo - {ip};
      }
      FlushEnds(was, m, deleteIPs);
      Forget(deleteIPs, m);
      Contents := m - deleteIPs;
    }

    // `bestRoute` is the answer of the path selector; `answers` are those of the route searches. Lists that
    // stay in the map are the same objects, and so are the entries that stay in a list.
    method Apply(bestRoute: SelectedRoute, k: Kernel)
      returns (k': Kernel, statuses: seq<RouteStatus>, reports: seq<Report>, ghost answers: Answers)
      requires Valid()
      modifies this`routes, this`Contents, this`activeConnectionID, Repr
      ensures Valid()
      ensures Contents == AppliedAll(old(Contents), answers, bestRoute.ip)
      ensures KernelApplied(k, k', old(Contents), bestRoute.ip, answers)
      ensures StatusesExact(statuses, old(Contents), k.links, answers)
      ensures activeConnectionID == bestRoute.id
      ensures reports == Reported(old(activeConnectionID), bestRoute.id, groupID, bestRoute.reason.Text())
      ensures routes.Keys <= old(routes).Keys && forall p :: p in routes ==> routes[p] == old(routes)[p]
      ensures forall p :: p in routes ==> forall i :: 0 <= i < |routes[p].list| ==> routes[p].list[i] in old(routes[p].list)
    {
      hide ServiceMonitor.Represents, StatusesExact, Applied, StatusOf, IsSearch, AppliedAll, Committing, KernelApplied;
      hide AppliedSlot, Lookup, Put;
      ghost var was, m := Contents, Contents;
      ghost var after := (q: Prefix, found: Option<string>) => SlotApplied(k, was, bestRoute.ip, q, found);
      var deleteIPs: set<Prefix> := {};
      k', statuses, answers := k, [], map[];
      var todo := Keys(m);
      CommitStarts(k, was, bestRoute.ip, after);
      while todo != {}
        invariant Represents(m) && routes == old(routes) && Repr == old(Repr) && m.Keys == was.Keys && todo <= was.Keys
        invariant forall p :: p in routes ==>
                    forall i :: 0 <= i < |routes[p].list| ==> routes[p].list[i] in old(routes[p].list)
        invariant activeConnectionID == old(activeConnectionID)
        invariant Committing(k, k', was, m, deleteIPs, todo, bestRoute.ip, answers, statuses, after)
      {
        var ip :| ip in todo;
        ghost var k0 := k';
        InReprOf(ip, m);
        var keep, status;
        ghost var found, g;
        k', keep, status, found, g := VisitAt(ip, bestRoute.ip, k', m);
        CommitContinues(k, k0, was, m, deleteIPs, todo, bestRoute.ip, answers, statuses, after, ip, found, g, keep, status);
        m, answers := m[ip := g], answers[ip := found];
        if status.Some? {
          statuses := statuses + [status.value];
        }
        if !keep {
          deleteIPs := deleteIPs + {ip};
        }
        todo := todo - {ip};
      }
      CommitEnds(k, k', was, m, deleteIPs, bestRoute.ip, answers, statuses, after);
      Forget(deleteIPs, m);
      Contents := m - deleteIPs;
      reports := Announce(bestRoute.id, bestRoute.reason.Text());
    }

    method Reroute(selroute: Option<SelectedRoute>, k: Kernel)
      returns (k': Kernel, reports: seq<Report>, ghost answers: Answers)
      requires Valid()
      modifies this`Contents, this`activeConnectionID, Repr
      ensures Valid()
      ensures Contents == ReroutedAll(old(Contents), SelectedAddr(selroute))
      ensures KernelRerouted(k, k', old(Contents), SelectedAddr(selroute), answers)
      ensures activeConnectionID == SelectedID(selroute)
      ensures reports == Reported(old(activeConnectionID), SelectedID(selroute), groupID, SelectedReason(selroute))
      ensures forall p :: p in routes ==> routes[p].list == old(routes[p].list)
    {
      hide ServiceMonitor.Represents, ReroutedGroup, ReroutedAll, ReroutedSlot, Rerouting, KernelRerouted, Lookup, Put, IsSearch;
      reports := Announce(SelectedID(selroute), SelectedReason(selroute));
      var gw := SelectedAddr(selroute);
      ghost var was, m := Contents, Contents;
      ghost var after := (q: Prefix, found: Option<string>) => SlotRerouted(k, was, gw, q, found);
      k', answers := k, map[];
      var todo := Keys(m);
      RerouteStarts(k, was, gw, after);
      while todo != {}
        invariant Represents(m) && routes == old(routes) && Repr == old(Repr) && m.Keys == was.Keys
        invariant forall p :: p in routes ==> routes[p].list == old(routes[p].list)
        invariant activeConnectionID == SelectedID(selroute) && todo <= was.Keys
        invariant Rerouting(k, k', was, m, todo, gw, answers, after)
      {
        var ip :| ip in todo;
        ghost var k0, found := k', None;
        InReprOf(ip, m);
        k', found := RerouteVisit(ip, gw, k', m);
        RerouteContinues(k, k0, was, m, todo, gw, answers, after, ip, found);
        m, answers := m[ip := ReroutedGroup(m[ip], gw)], answers[ip := found];
        todo := todo - {ip};
      }
      RerouteEnds(k, k', was, m, gw, answers, after);
      Contents := m;
    }

    method ResolveIpConflict(isIPconflict: Prefix -> bool) returns (count: nat)
      requires Valid()
      modifies this`Contents, Repr
      ensures Valid()
      ensures Contents == Resolved(old(Contents), isIPconflict)
      ensures forall p :: p in routes ==> routes[p].list == old(routes[p].list)
      ensures count == |ResolvedKeys(old(Contents), old(Contents).Keys, isIPconflict)|
    {
      hide ServiceMonitor.Represents, ResolveProgress, Resolved, ResolvedKeys;
      ghost var was, m := Contents, Contents;
      count := 0;
      var todo := Keys(m);
      ResolveStarts(was, isIPconflict);
      while todo != {}
        invariant Represents(m) && routes == old(routes) && Repr == old(Repr) && m.Keys == was.Keys && todo <= was.Keys
        invariant forall p :: p in routes ==> routes[p].list == old(routes[p].list)
        invariant ResolveProgress(was, m, todo, isIPconflict, count)
      {
        var ip :| ip in todo;
        ResolveContinues(was, m, todo, isIPconflict, count, ip);
        var disabled := IsDisabled(ip, m);
        if disabled && !isIPconflict(ip) {
          EnableAt(ip, m);
          m := m[ip := m[ip].(disabled := false)];
          count := count + 1;
        }
        todo := todo - {ip};
      }
      ResolveEnds(was, m, isIPconflict, count);
      Contents := m;
    }

    method Close(k: Kernel) returns (k': Kernel)
      requires Valid()
      modifies this`routes, this`Contents, Repr
      ensures Valid() && Contents == map[]
      ensures k'.links == k.links
      ensures forall q :: Lookup(k'.table, q) == SlotClosed(k, old(Contents), q)
    {
      hide ServiceMonitor.Represents, ClearedSlot, Cleared, Underway, Lookup, Put, IsSearch;
      k' := k;
      ghost var was, m := Contents, Contents;
      ghost var answers: Answers := map[];
      ghost var after := (q: Prefix, _: Option<string>) => SlotClosed(k, was, q);
      var todo := Keys(m);
      NothingVisited(k, was.Keys, after);
      while todo != {}
        invariant Represents(m) && routes == old(routes) && Repr == old(Repr) && m.Keys == was.Keys
        invariant Contents == old(Contents) && todo <= m.Keys
        invariant forall p :: p in todo ==> m[p] == was[p]
        invariant forall p :: p in m ==> m[p].disabled == was[p].disabled
        invariant Underway(k, k', was.Keys, todo, answers, after)
      {
        var ip :| ip in todo;
        ghost var found := SearchAnswers(k'.table, ip);
        Visiting(k, k', was.Keys, todo, answers, after, ip, found);
        var disabled := IsDisabled(ip, m);
        if !disabled {
          k' := ClearAt(ip, k', m);
          m := m[ip := m[ip].(entries := Cleared(m[ip].entries))];
        }
        answers := answers[ip := found];
        todo := todo - {ip};
      }
      AllVisited(k, k', was.Keys, answers, after);
      var all := Keys(m);
      Forget(all, m);
      assert m - all == map[];
      Contents := map[];
    }
  }
}
