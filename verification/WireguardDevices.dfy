/**
 The cache of WireGuard devices (agent/swireguard/cache.go, interface.go, wireguard.go).
 The slice is a backing array and a length, as its elements are moved in place.
 */
module WireguardDevices {
  import opened Net

  class InterfaceInfo {
    const ifName: string
    var publicKey: string
    var privateKey: string
    var ip: Option<Addr>
    var port: nat

    constructor (ifName: string, publicKey: string, privateKey: string, ip: Option<Addr>, port: nat)
      ensures this.ifName == ifName && this.publicKey == publicKey && this.privateKey == privateKey
      ensures this.ip == ip && this.port == port
    {
      this.ifName, this.publicKey, this.privateKey, this.ip, this.port := ifName, publicKey, privateKey, ip, port;
    }
  }

  // The test by which interfaceCacheDel recognises a device.
  predicate Matches(dev: InterfaceInfo, ii: InterfaceInfo)
    reads dev, ii
  {
    || dev.ifName == ii.ifName
    || (|ii.publicKey| > 0 && dev.publicKey == ii.publicKey)
    || (|ii.privateKey| > 0 && dev.privateKey == ii.privateKey)
  }

  ghost predicate UniqueNames(s: seq<InterfaceInfo>) {
    forall i, j :: 0 <= i < j < |s| ==> s[i].ifName != s[j].ifName
  }

  function Names(s: seq<InterfaceInfo>): (names: seq<string>)
    ensures |names| == |s|
  {
    seq(|s|, i requires 0 <= i < |s| => s[i].ifName)
  }

  predicate Unknown(ifname: string, s: seq<InterfaceInfo>) {
    forall d :: d in s ==> d.ifName != ifname
  }

  function Without(os: set<string>, removed: seq<string>): set<string> {
    os - set name | name in removed
  }

  // Of all devices, `d` alone changes, and takes over what `ii` says.
  twostate predicate TookOver(s: seq<InterfaceInfo>, d: InterfaceInfo, ii: InterfaceInfo)
    reads s, d
  {
    && d.publicKey == old(ii.publicKey) && d.privateKey == old(ii.privateKey) && d.ip == old(ii.ip) && d.port == old(ii.port)
    && forall o :: o in s && o != d ==> unchanged(o)
  }

  // The first device of the name, at `named`, is looked for again, and what is recognised as it, at `index`, gives its
  // place to the last one.
  ghost predicate RemovedOne(before: seq<InterfaceInfo>, m: nat, after: seq<InterfaceInfo>, len: nat, ifname: string,
                             named: nat, index: nat)
    reads before
  {
    && named <= m <= |before| && (forall j :: 0 <= j < named ==> before[j].ifName != ifname)
    && if named == m then len == m && after == before
       else
         && before[named].ifName == ifname && index <= named && len == m - 1
         && Matches(before[index], before[named])
         && (forall j :: 0 <= j < index ==> !Matches(before[j], before[named]))
         && after == before[index := before[m - 1]]
  }

  class DeviceCache {
    var devices: array<InterfaceInfo>  // the backing array
    var len: nat

    ghost predicate Inv()
      reads this
    {
      len <= devices.Length
    }

    ghost function Contents(): seq<InterfaceInfo>
      requires Inv()
      reads this, devices
    {
      devices[..len]
    }

    ghost function First(ifname: string): (i: nat)
      requires Inv() && !Unknown(ifname, Contents())
      reads this, devices
      ensures i < len && devices[i].ifName == ifname && forall j :: 0 <= j < i ==> devices[j].ifName != ifname
    {
      FirstNamed(Contents(), ifname)
    }

    method Device(ifname: string) returns (dev: InterfaceInfo?)
      requires Inv()
      ensures dev == null <==> Unknown(ifname, Contents())
      ensures dev != null ==> dev == devices[First(ifname)] && dev in Contents()
    {
      for i := 0 to len
        invariant forall j :: 0 <= j < i ==> devices[j].ifName != ifname
      {
        if devices[i].ifName == ifname {
          assert Contents()[i] in Contents();
          return devices[i];
        }
      }
      dev := null;
    }

    // A known name keeps its device, which takes over the other values; so names stay unique.
    method InterfaceCacheAdd(ii: InterfaceInfo)
      requires Inv()
      modifies this, devices, Contents()
      ensures Inv() && (devices == old(devices) || fresh(devices))
      ensures if Unknown(ii.ifName, old(Contents())) then Contents() == old(Contents()) + [ii] && unchanged(old(Contents()))
              else Contents() == old(Contents()) && exists d :: d in Contents() && d.ifName == ii.ifName && TookOver(old(Contents()), d, ii)
      ensures old(UniqueNames(Contents())) ==> UniqueNames(Contents())
    {
      var dev := Device(ii.ifName);
      if dev != null {
        dev.privateKey, dev.publicKey, dev.ip, dev.port := ii.privateKey, ii.publicKey, ii.ip, ii.port;
        return;
      }
      if len == devices.Length {
        var grown := new InterfaceInfo[2 * len + 1](_ => ii);
        for i := 0 to len
          invariant forall j :: 0 <= j < i ==> grown[j] == old(Contents())[j]
          invariant fresh(grown) && unchanged(this) && unchanged(devices) && unchanged(old(Contents()))
        {
          grown[i] := devices[i];
        }
        devices := grown;
      }
      devices[len] := ii;
      len := len + 1;
      assert devices[..len] == old(Contents()) + [ii];
    }

    // The first device recognised gives its place to the last one.
    method InterfaceCacheDel(ii: InterfaceInfo) returns (ghost index: nat)
      requires Inv()
      modifies this`len, devices
      ensures Inv()
      ensures index <= old(len) && forall j :: 0 <= j < index ==> !old(Matches(devices[j], ii))
      ensures index < old(len) ==>
                && old(Matches(devices[index], ii)) && len == old(len) - 1
                && devices[..] == old(devices[..])[index := old(devices[len - 1])]
      ensures index == old(len) ==> len == old(len) && devices[..] == old(devices[..])
    {
      for i := 0 to len
        invariant forall j :: 0 <= j < i ==> !Matches(devices[j], ii)
        invariant devices[..] == old(devices[..]) && len == old(len)
      {
        if Matches(devices[i], ii) {
          devices[i] := devices[len - 1];
          len := len - 1;
          return i;
        }
      }
      index := len;
    }

    // `os` are the names of the interfaces that exist.
    method RemoveInterface(ii: InterfaceInfo, os: set<string>)
      returns (os': set<string>, ok: bool, ghost named: nat, ghost index: nat)
      requires Inv()
      modifies this`len, devices
      ensures Inv()
      ensures os' == os - {ii.ifName} && (ok <==> ii.ifName in os)
      ensures RemovedOne(old(devices[..]), old(len), devices[..], len, ii.ifName, named, index)
    {
      named, index := len, len;
      var dev := Device(ii.ifName);
      if dev != null {
        named := First(ii.ifName);
        index := InterfaceCacheDel(dev);
      }
      ok := ii.ifName in os;
      os' := os - {ii.ifName};
    }

    // One turn of the loop of Close.
    method CloseTurn(dev: InterfaceInfo, os: set<string>, ghost was: seq<InterfaceInfo>, ghost i: nat, ghost missed: int)
      returns (os': set<string>, ghost missed': int)
      requires Inv() && len <= |was| && i < |was| <= devices.Length && dev == was[i]
      requires Closing(was, devices[..], len, i, missed)
      modifies this`len, devices
      ensures Inv() && len <= |was| && Closing(was, devices[..], len, i + 1, missed')
      ensures os' == os - {dev.ifName}
    {
      hide Closing, RemovedOne;
      ghost var before, m := devices[..], len;
      var ok;
      ghost var named, index;
      os', ok, named, index := RemoveInterface(dev, os);
      missed' := CloseContinues(was, before, m, devices[..], len, i, named, index, missed);
    }

    // The loop ranges over the slice as it was when the loop began, while the calls shrink and reorder the same
    // backing array. It never leaves the array, and asks for every device to be removed exactly once, in the order
    // of the cache. When names are unique, the cache ends empty iff no device is mistaken for another.
    method Close(cleanupOnExit: bool, os: set<string>) returns (os': set<string>, removed: seq<string>)
      requires Inv()
      modifies this`len, devices
      ensures Inv()
      ensures !cleanupOnExit ==> removed == [] && os' == os && len == old(len) && devices[..] == old(devices[..])
      ensures cleanupOnExit ==> removed == Names(old(Contents())) && os' == Without(os, removed)
      ensures cleanupOnExit && UniqueNames(old(Contents())) ==> (Contents() == [] <==> !Mistaken(old(Contents())))
    {
      os', removed := os, [];
      if !cleanupOnExit {
        return;
      }
      hide Closing, RemovedOne, Names, Without, UniqueNames, Mistaken;
      ghost var was, missed: int := Contents(), -1;
      var n := len;
      CloseStarts(os, was, devices[..]);
      for i := 0 to n
        invariant len <= n == |was| <= devices.Length && devices == old(devices)
        invariant removed == Names(was)[..i] && os' == Without(os, removed)
        invariant Closing(was, devices[..], len, i, missed)
      {
        AtHand(was, devices[..], len, i, missed);
        var dev := devices[i];
        os', missed := CloseTurn(dev, os', was, i, missed);
        CloseNames(os, was, removed, i);
        removed := removed + [dev.ifName];
      }
      CloseEnds(was, devices[..], len, missed);
    }
  }

  ghost function FirstNamed(s: seq<InterfaceInfo>, ifname: string): (i: nat)
    requires !Unknown(ifname, s)
    ensures i < |s| && s[i].ifName == ifname && forall j :: 0 <= j < i ==> s[j].ifName != ifname
  {
    if s[0].ifName == ifname then 0
    else
      assert !Unknown(ifname, s[1..]) by {
        var d :| d in s && d.ifName == ifname;
        assert d in s[1..];
      }
      1 + FirstNamed(s[1..], ifname)
  }

  // A device of the second half of the loop is recognised as one that comes before it: it has been moved to the front.
  ghost predicate Mistaken(was: seq<InterfaceInfo>)
    reads was
  {
    exists i: nat, m: nat :: IsMistaken(was, i, m)
  }

  ghost predicate IsMistaken(was: seq<InterfaceInfo>, i: nat, m: nat)
    reads was
  {
    i < m < |was| <= i + m && Matches(was[m], was[i])
  }

  /** Of three devices with names of their own one is mistaken iff the last two have a key in common, public or private,
      that is set. */
  lemma MistakenThree(a: InterfaceInfo, b: InterfaceInfo, c: InterfaceInfo)
    requires b.ifName != c.ifName
    ensures Mistaken([a, b, c]) <==>
            b.publicKey == c.publicKey != "" || b.privateKey == c.privateKey != ""
  {
    var was := [a, b, c];
    assert was[1] == b && was[2] == c;
    if Mistaken(was) {
      var i: nat, m: nat :| IsMistaken(was, i, m);
      assert i == 1 && m == 2;
    }
    if b.publicKey == c.publicKey != "" || b.privateKey == c.privateKey != "" {
      assert IsMistaken(was, 1, 2);
    }
  }

  // ---- The loop of Close --------------------------------------------------------------

  // What the loop has not reached is where it was.
  ghost predicate Ahead(was: seq<InterfaceInfo>, backing: seq<InterfaceInfo>, i: nat) {
    |was| <= |backing| && forall j :: i <= j < |was| ==> backing[j] == was[j]
  }

  // So far every device was removed in its turn: those from the back have filled the places at the front.
  ghost predicate Reached(was: seq<InterfaceInfo>, backing: seq<InterfaceInfo>, len: nat, i: nat)
    reads was
  {
    && len + i == |was| <= |backing|
    && (forall j :: 0 <= j < len && j < i ==> backing[j] == was[|was| - 1 - j])
    && (forall j :: i <= j < len ==> backing[j] == was[j])
    && forall h: nat, m: nat :: h < i ==> !IsMistaken(was, h, m)
  }

  // The device `missed` has left the cache in the place of another, and will not be found in its turn.
  ghost predicate Missed(was: seq<InterfaceInfo>, backing: seq<InterfaceInfo>, len: nat, i: nat, missed: nat)
    reads was
  {
    && missed < |was| <= |backing| && len <= |was| && Mistaken(was)
    && (forall j :: 0 <= j < len ==> backing[j].ifName != was[missed].ifName)
    && len + i >= |was| + if missed < i then 1 else 0
  }

  ghost predicate Closing(was: seq<InterfaceInfo>, backing: seq<InterfaceInfo>, len: nat, i: nat, missed: int)
    reads was
  {
    && Ahead(was, backing, i)
    && (UniqueNames(was) ==> if missed < 0 then Reached(was, backing, len, i) else Missed(was, backing, len, i, missed))
  }

  lemma CloseStarts(os: set<string>, was: seq<InterfaceInfo>, backing: seq<InterfaceInfo>)
    requires was <= backing
    ensures Names(was)[..0] == [] && Without(os, []) == os
    ensures Closing(was, backing, |was|, 0, -1)
  {
  }

  lemma AtHand(was: seq<InterfaceInfo>, backing: seq<InterfaceInfo>, len: nat, i: nat, missed: int)
    requires i < |was| && Closing(was, backing, len, i, missed)
    ensures |was| <= |backing| && backing[i] == was[i]
  {
  }

  lemma CloseNames(os: set<string>, was: seq<InterfaceInfo>, removed: seq<string>, i: nat)
    requires i < |was| && removed == Names(was)[..i]
    ensures removed + [was[i].ifName] == Names(was)[..i + 1]
    ensures Without(os, removed + [was[i].ifName]) == Without(os, removed) - {was[i].ifName}
  {
  }

  lemma CloseEnds(was: seq<InterfaceInfo>, backing: seq<InterfaceInfo>, len: nat, missed: int)
    requires len <= |was| <= |backing| && Closing(was, backing, len, |was|, missed)
    ensures Names(was)[..|was|] == Names(was)
    ensures UniqueNames(was) ==> (backing[..len] == [] <==> !Mistaken(was))
  {
    hide UniqueNames, Matches;
  }

  // One turn. `before` and `m` are the backing array and the length that the call found.
  lemma CloseContinues(was: seq<InterfaceInfo>, before: seq<InterfaceInfo>, m: nat, after: seq<InterfaceInfo>, len: nat,
                       i: nat, named: nat, index: nat, missed: int) returns (missed': int)
    requires i < |was| <= |before| && m <= |was| && Closing(was, before, m, i, missed)
    requires RemovedOne(before, m, after, len, was[i].ifName, named, index)
    ensures Closing(was, after, len, i + 1, missed') && len <= m
  {
    missed' := missed;
    assert before[i] == was[i];
    if UniqueNames(was) {
      if missed >= 0 {
        StillMissed(was, before, m, after, len, i, named, index, missed);
      } else {
        missed' := TurnTaken(was, before, m, after, len, i, named, index);
      }
    }
  }

  lemma StillMissed(was: seq<InterfaceInfo>, before: seq<InterfaceInfo>, m: nat, after: seq<InterfaceInfo>, len: nat,
                    i: nat, named: nat, index: nat, missed: nat)
    requires i < |was| <= |before| && Missed(was, before, m, i, missed)
    requires RemovedOne(before, m, after, len, was[i].ifName, named, index)
    ensures Missed(was, after, len, i + 1, missed)
  {
    hide Mistaken;
  }

  // The device at hand is in the place where it began, or at the mirrored one at the front. What is recognised before
  // it, if anything, is a device of the back.
  lemma TurnTaken(was: seq<InterfaceInfo>, before: seq<InterfaceInfo>, m: nat, after: seq<InterfaceInfo>, len: nat,
                  i: nat, named: nat, index: nat) returns (missed: int)
    requires i < |was| <= |before| && UniqueNames(was) && Reached(was, before, m, i)
    requires RemovedOne(before, m, after, len, was[i].ifName, named, index)
    ensures if missed < 0 then Reached(was, after, len, i + 1) else Missed(was, after, len, i + 1, missed)
  {
    var n := |was|;
    var at := if i < m then i else m - 1;
    assert before[at] == was[i];
    assert named == at by { SameName(was, before, m, i, named, at); }
    if index == at {
      missed := -1;
      forall x: nat ensures !IsMistaken(was, i, x) {
        if i < x < n <= i + x {
          assert before[n - 1 - x] == was[x];
        }
      }
    } else {
      missed := n - 1 - index;
      assert before[index] == was[missed];
      assert IsMistaken(was, i, missed);
      forall j | 0 <= j < len ensures after[j].ifName != was[missed].ifName {
        var k := if j == index then m - 1 else j;
        assert after[j] == before[k] && k != index;
        if before[k].ifName == before[index].ifName { SameName(was, before, m, i, k, index); }
      }
    }
  }

  // Different places hold devices of different names.
  lemma SameName(was: seq<InterfaceInfo>, before: seq<InterfaceInfo>, m: nat, i: nat, a: nat, b: nat)
    requires UniqueNames(was) && i < |was| && Reached(was, before, m, i)
    requires a < m && b < m && before[a].ifName == before[b].ifName
    ensures a == b
  {
    var n := |was|;
    var x := if a < i then n - 1 - a else a;
    var y := if b < i then n - 1 - b else b;
    assert before[a] == was[x] && before[b] == was[y];
  }
}
