/**
 The peers of a WireGuard device: the cache (agent/swireguard/cache.go), and its
 reconciliation with the operating system (agent/swireguard/peer.go).
 */
module WireguardPeers {
  import opened Net

  // ---- Peers -------------------------------------------------------------------------

  datatype Peer = Peer(publicKey: string, ip: Option<Addr>, port: int, allowedIPs: seq<Prefix>)

  ghost predicate UniqueKeys(s: seq<Peer>) {
    forall a, b :: 0 <= a < b < |s| ==> s[a].publicKey != s[b].publicKey
  }

  // The peers of one device.
  class PeerCache {
    var peers: array<Peer>  // the backing array
    var len: nat

    ghost predicate Valid()
      reads this, peers
    {
      len <= peers.Length && UniqueKeys(peers[..len])
    }

    ghost function Contents(): seq<Peer>
      requires Valid()
      reads this, peers
    {
      peers[..len]
    }

    method Add(pi: Peer)
      requires Valid()
      modifies this
      modifies peers
      ensures Valid() && (peers == old(peers) || fresh(peers))
      ensures Contents() == old(Contents()) + if exists p :: p in old(Contents()) && p.publicKey == pi.publicKey then [] else [pi]
    {
      for i := 0 to len
        invariant forall j :: 0 <= j < i ==> Contents()[j].publicKey != pi.publicKey
      {
        if peers[i].publicKey == pi.publicKey {
          assert Contents()[i] in Contents();
          return;
        }
      }
      if len == peers.Length {
        var grown := new Peer[2 * len + 1](_ => pi);
        for i := 0 to len
          invariant forall j :: 0 <= j < i ==> grown[j] == old(Contents())[j]
          invariant fresh(grown) && unchanged(this) && unchanged(peers)
        {
          grown[i] := peers[i];
        }
        peers := grown;
      }
      peers[len] := pi;
      len := len + 1;
      assert peers[..len] == old(Contents()) + [pi];
    }

    // Unlike interfaceCacheDel, the loop goes on after a removal, over the slice as it was: it also sees
    // the element that the removal left behind the end. As keys are unique, it removes at most once: the
    // last peer takes the place of the one with the key, and nothing else of the backing array is written.
    method Del(publicKey: string) returns (ghost at: nat)
      requires Valid()
      modifies this`len, peers
      ensures Valid()
      ensures forall p :: p in Contents() <==> p in old(Contents()) && p.publicKey != publicKey
      ensures at <= old(len) && (at < old(len) <==> exists p :: p in old(Contents()) && p.publicKey == publicKey)
      ensures at < old(len) ==>
                && old(peers[at].publicKey) == publicKey && len == old(len) - 1
                && peers[..] == old(peers[..])[at := old(peers[len - 1])]
      ensures at == old(len) ==> len == old(len) && peers[..] == old(peers[..])
    {
      ghost var was, all := Contents(), peers[..];
      var n := len;
      at := n;
      for idx := 0 to n
        invariant 0 <= at < idx || at == n
        invariant at == n ==> len == n && peers[..] == all && forall j :: 0 <= j < idx ==> was[j].publicKey != publicKey
        invariant at < n ==> len == n - 1 && was[at].publicKey == publicKey && peers[..] == all[at := was[n - 1]]
      {
        if peers[idx].publicKey == publicKey {
          assert peers[..][idx].publicKey == publicKey;
          assert at == n;
          peers[idx] := peers[len - 1];
          len := len - 1;
          at := idx;
        }
      }
      if at < n {
        OneLess(was, at);
        assert peers[..len] == was[at := was[n - 1]][..n - 1];
        assert was[at] in was;
      } else {
        assert peers[..len] == was;
      }
    }
  }

  lemma OneLess(was: seq<Peer>, at: nat)
    requires UniqueKeys(was) && at < |was|
    ensures var s := was[at := was[|was| - 1]][..|was| - 1];
            UniqueKeys(s) && forall p :: p in s <==> p in was && p.publicKey != was[at].publicKey
  {
    var m := |was| - 1;
    var s := was[at := was[m]][..m];
    assert forall a :: 0 <= a < m ==> s[a] == was[if a == at then m else a];
    forall p | p in was && p.publicKey != was[at].publicKey ensures p in s {
      var b :| 0 <= b < |was| && was[b] == p;
      assert s[if b == m then at else b] == p;
    }
  }

  // ---- Synchronising the peers of a device with the operating system -----------------

  datatype Key = Key(bytes: seq<bv8>)

  // How wgtypes writes and reads keys. Reading is the more liberal side: several strings may be read as the same key.
  datatype Codec = Codec(show: Key -> string, parse: string -> Option<Key>) {
    ghost predicate Valid() {
      forall k :: parse(show(k)) == Some(k)
    }

    ghost predicate Canonical(s: string) {
      parse(s).Some? && show(parse(s).value) == s
    }
  }

  // An allowed address the system reports in a form that is no address is None.
  datatype OsPeer = OsPeer(key: Key, allowedIPs: seq<Option<Prefix>>)

  datatype PeerConfig =
    | AddPeer(key: Key, endpoint: Option<(Addr, int)>, allowedIPs: seq<Prefix>)
    | RemovePeer(key: Key)

  function Cached(peers: seq<Peer>): set<string> {
    set i | 0 <= i < |peers| :: peers[i].publicKey
  }

  function Keys(os: seq<OsPeer>): set<Key> {
    set i | 0 <= i < |os| :: os[i].key
  }

  function Shown(c: Codec, keys: set<Key>): set<string> {
    set k | k in keys :: c.show(k)
  }

  // What ConfigureDevice makes of the keys of the device, taking the changes in order.
  function Configured(keys: set<Key>, cfg: seq<PeerConfig>): set<Key> {
    if cfg == [] then keys
    else
      var before := Configured(keys, cfg[..|cfg| - 1]);
      var change := cfg[|cfg| - 1];
      if change.AddPeer? then before + {change.key} else before - {change.key}
  }

  function AsPeerConfig(p: Peer, key: Key): PeerConfig {
    AddPeer(key, if p.ip.Some? && p.port > 0 then Some((p.ip.value, p.port)) else None, p.allowedIPs)
  }

  function Missing(c: Codec, peers: seq<Peer>, os: seq<OsPeer>): seq<PeerConfig> {
    if peers == [] then []
    else
      var last := peers[|peers| - 1];
      Missing(c, peers[..|peers| - 1], os) +
      if last.publicKey !in Shown(c, Keys(os)) && c.parse(last.publicKey).Some?
      then [AsPeerConfig(last, c.parse(last.publicKey).value)] else []
  }

  function Residual(c: Codec, peers: seq<Peer>, os: seq<OsPeer>): seq<PeerConfig> {
    if os == [] then []
    else
      var last := os[|os| - 1];
      Residual(c, peers, os[..|os| - 1]) + if c.show(last.key) !in Cached(peers) then [RemovePeer(last.key)] else []
  }

  function Valids(ips: seq<Option<Prefix>>): seq<Prefix> {
    if ips == [] then []
    else
      var last := ips[|ips| - 1];
      Valids(ips[..|ips| - 1]) + if last.Some? then [last.value] else []
  }

  function Freed(c: Codec, peers: seq<Peer>, os: seq<OsPeer>): seq<Prefix> {
    if os == [] then []
    else
      var last := os[|os| - 1];
      Freed(c, peers, os[..|os| - 1]) + if c.show(last.key) !in Cached(peers) then Valids(last.allowedIPs) else []
  }

  method ValidIPs(ips: seq<Option<Prefix>>) returns (r: seq<Prefix>)
    ensures r == Valids(ips)
  {
    r := [];
    for j := 0 to |ips|
      invariant r == Valids(ips[..j])
    {
      assert ips[..j + 1][..j] == ips[..j];
      if ips[j].Some? {
        r := r + [ips[j].value];
      }
    }
    assert ips[..|ips|] == ips;
  }

  method ApplyPeers(c: Codec, peers: seq<Peer>, os: seq<OsPeer>) returns (cfg: seq<PeerConfig>, allowedIPs: seq<Prefix>)
    ensures cfg == Missing(c, peers, os) + Residual(c, peers, os)
    ensures allowedIPs == Freed(c, peers, os)
  {
    cfg, allowedIPs := [], [];
    for i := 0 to |peers|
      invariant cfg == Missing(c, peers[..i], os)
    {
      assert peers[..i + 1][..i] == peers[..i];
      var addPeer := true;
      for j := 0 to |os|
        invariant addPeer
        invariant forall j' :: 0 <= j' < j ==> c.show(os[j'].key) != peers[i].publicKey
      {
        if peers[i].publicKey == c.show(os[j].key) {
          assert os[j].key in Keys(os);
          addPeer := false;
          break;
        }
      }
      var key := c.parse(peers[i].publicKey);
      if addPeer && key.Some? {
        cfg := cfg + [AsPeerConfig(peers[i], key.value)];
      }
    }
    assert peers[..|peers|] == peers;
    hide Missing, Valids, Shown;
    for i := 0 to |os|
      invariant cfg == Missing(c, peers, os) + Residual(c, peers, os[..i])
      invariant allowedIPs == Freed(c, peers, os[..i])
    {
      assert os[..i + 1][..i] == os[..i];
      var needRemove := true;
      for j := 0 to |peers|
        invariant needRemove
        invariant forall j' :: 0 <= j' < j ==> c.show(os[i].key) != peers[j'].publicKey
      {
        if peers[j].publicKey == c.show(os[i].key) {
          needRemove := false;
          break;
        }
      }
      if needRemove {
        cfg := cfg + [RemovePeer(os[i].key)];
        var ips := ValidIPs(os[i].allowedIPs);
        allowedIPs := allowedIPs + ips;
      }
    }
    assert os[..|os|] == os;
  }

  // ---- What is configured --------------------------------------------------------------

  // The change adds the cached peer: with all its addresses, and with an endpoint iff it has a valid address and a port.
  predicate Describes(x: PeerConfig, p: Peer) {
    && x.AddPeer? && x.allowedIPs == p.allowedIPs
    && (x.endpoint.Some? <==> p.ip.Some? && p.port > 0)
    && (x.endpoint.Some? ==> x.endpoint.value == (p.ip.value, p.port))
  }

  ghost predicate IsAddition(c: Codec, peers: seq<Peer>, os: seq<OsPeer>, x: PeerConfig) {
    exists p :: p in peers && Describes(x, p) && c.parse(p.publicKey) == Some(x.key)
                && forall o :: o in os ==> c.show(o.key) != p.publicKey
  }

  ghost predicate IsRemoval(c: Codec, peers: seq<Peer>, os: seq<OsPeer>, x: PeerConfig) {
    && x.RemovePeer? && (forall p :: p in peers ==> p.publicKey != c.show(x.key))
    && exists o :: o in os && o.key == x.key
  }

  lemma {:induction false} MissingExactly(c: Codec, peers: seq<Peer>, os: seq<OsPeer>, x: PeerConfig)
    ensures x in Missing(c, peers, os) <==> IsAddition(c, peers, os, x)
  {
    if peers != [] {
      var front, last := peers[..|peers| - 1], peers[|peers| - 1];
      assert peers == front + [last];
      MissingExactly(c, front, os, x);
      ShownExactly(c, os, last.publicKey);
    }
  }

  lemma ShownExactly(c: Codec, os: seq<OsPeer>, s: string)
    ensures s in Shown(c, Keys(os)) <==> exists o :: o in os && c.show(o.key) == s
  {
    if s in Shown(c, Keys(os)) {
      var k :| k in Keys(os) && c.show(k) == s;
      var i :| 0 <= i < |os| && os[i].key == k;
      assert os[i] in os;
    }
    if o :| o in os && c.show(o.key) == s {
      assert o.key in Keys(os);
    }
  }

  lemma {:induction false} ResidualExactly(c: Codec, peers: seq<Peer>, os: seq<OsPeer>, x: PeerConfig)
    ensures x in Residual(c, peers, os) <==> IsRemoval(c, peers, os, x)
  {
    if os != [] {
      var front, last := os[..|os| - 1], os[|os| - 1];
      assert os == front + [last];
      ResidualExactly(c, peers, front, x);
      CachedExactly(peers, c.show(last.key));
    }
  }

  lemma CachedExactly(peers: seq<Peer>, s: string)
    ensures s in Cached(peers) <==> exists p :: p in peers && p.publicKey == s
  {
    if p :| p in peers && p.publicKey == s {
      var i :| 0 <= i < |peers| && peers[i] == p;
      assert peers[i].publicKey in Cached(peers);
    }
  }

  /** The changes are exactly the additions of readable cached peers that the device lacks, each as it is cached, and the
      removals of the peers of the device that are not cached. */
  lemma ConfigExactly(c: Codec, peers: seq<Peer>, os: seq<OsPeer>, x: PeerConfig)
    ensures x in Missing(c, peers, os) + Residual(c, peers, os) <==> IsAddition(c, peers, os, x) || IsRemoval(c, peers, os, x)
  {
    MissingExactly(c, peers, os, x);
    ResidualExactly(c, peers, os, x);
  }

  // The keys the device has afterwards.
  function Synchronised(c: Codec, peers: seq<Peer>, os: seq<OsPeer>): set<Key> {
    Configured(Keys(os), Missing(c, peers, os) + Residual(c, peers, os))
  }

  lemma {:induction false} ConfiguredParts(keys: set<Key>, a: seq<PeerConfig>, b: seq<PeerConfig>)
    ensures Configured(keys, a + b) == Configured(Configured(keys, a), b)
    decreases |b|
  {
    if b == [] {
      assert a + b == a;
    } else {
      assert (a + b)[..|a + b| - 1] == a + b[..|b| - 1];
      ConfiguredParts(keys, a, b[..|b| - 1]);
    }
  }

  lemma ConfiguredOne(keys: set<Key>, change: PeerConfig)
    ensures Configured(keys, [change]) == if change.AddPeer? then keys + {change.key} else keys - {change.key}
  {
    assert [change][..0] == [];
  }

  predicate IsMissing(c: Codec, p: Peer, os: seq<OsPeer>, k: Key) {
    p.publicKey !in Shown(c, Keys(os)) && c.parse(p.publicKey) == Some(k)
  }

  ghost predicate Adds(c: Codec, peers: seq<Peer>, os: seq<OsPeer>, k: Key) {
    exists p :: p in peers && IsMissing(c, p, os, k)
  }

  lemma {:induction false} MissingAdds(c: Codec, peers: seq<Peer>, os: seq<OsPeer>, keys: set<Key>, k: Key)
    ensures k in Configured(keys, Missing(c, peers, os)) <==> k in keys || Adds(c, peers, os, k)
    decreases |peers|
  {
    if peers != [] {
      hide Shown;
      var front, last := peers[..|peers| - 1], peers[|peers| - 1];
      MissingAdds(c, front, os, keys, k);
      assert peers == front + [last];
      var changes := if last.publicKey !in Shown(c, Keys(os)) && c.parse(last.publicKey).Some?
                     then [AsPeerConfig(last, c.parse(last.publicKey).value)] else [];
      ConfiguredParts(keys, Missing(c, front, os), changes);
      if changes != [] {
        ConfiguredOne(Configured(keys, Missing(c, front, os)), changes[0]);
      }
      assert Adds(c, peers, os, k) <==> Adds(c, front, os, k) || IsMissing(c, last, os, k);
    }
  }

  lemma {:induction false} ResidualRemoves(c: Codec, peers: seq<Peer>, os: seq<OsPeer>, keys: set<Key>, k: Key)
    ensures k in Configured(keys, Residual(c, peers, os)) <==> k in keys && !(k in Keys(os) && c.show(k) !in Cached(peers))
    decreases |os|
  {
    if os != [] {
      hide Cached;
      var front, last := os[..|os| - 1], os[|os| - 1];
      ResidualRemoves(c, peers, front, keys, k);
      var changes := if c.show(last.key) !in Cached(peers) then [RemovePeer(last.key)] else [];
      ConfiguredParts(keys, Residual(c, peers, front), changes);
      if changes != [] {
        ConfiguredOne(Configured(keys, Residual(c, peers, front)), changes[0]);
      }
      KeysSplit(os);
    }
  }

  lemma KeysSplit(os: seq<OsPeer>)
    requires os != []
    ensures Keys(os) == Keys(os[..|os| - 1]) + {os[|os| - 1].key}
  {
    forall k | k in Keys(os) && k != os[|os| - 1].key ensures k in Keys(os[..|os| - 1]) {
      var i :| 0 <= i < |os| && os[i].key == k;
      assert os[..|os| - 1][i].key == k;
    }
    forall k | k in Keys(os[..|os| - 1]) ensures k in Keys(os) {
      var i :| 0 <= i < |os| - 1 && os[..|os| - 1][i].key == k;
      assert os[i].key == k;
    }
  }

  lemma SynchronisedKeys(c: Codec, peers: seq<Peer>, os: seq<OsPeer>, k: Key)
    ensures k in Synchronised(c, peers, os) <==>
            if k in Keys(os) then c.show(k) in Cached(peers) else Adds(c, peers, os, k)
  {
    var keys := Configured(Keys(os), Missing(c, peers, os));
    ConfiguredParts(Keys(os), Missing(c, peers, os), Residual(c, peers, os));
    MissingAdds(c, peers, os, Keys(os), k);
    ResidualRemoves(c, peers, os, keys, k);
  }

  /** The device ends up with exactly the cached keys iff each one it did not have is written the way keys are shown. */
  lemma SynchronisedExactly(c: Codec, peers: seq<Peer>, os: seq<OsPeer>)
    requires c.Valid()
    ensures Shown(c, Synchronised(c, peers, os)) == Cached(peers) <==>
            forall s :: s in Cached(peers) && s !in Shown(c, Keys(os)) ==> c.Canonical(s)
  {
    hide Synchronised;
    var after := Synchronised(c, peers, os);
    forall k ensures k in after <==> if k in Keys(os) then c.show(k) in Cached(peers) else Adds(c, peers, os, k) {
      SynchronisedKeys(c, peers, os, k);
    }
    if forall s :: s in Cached(peers) && s !in Shown(c, Keys(os)) ==> c.Canonical(s) {
      forall s | s in Cached(peers) ensures s in Shown(c, after) {
        if s in Shown(c, Keys(os)) {
          var k :| k in Keys(os) && c.show(k) == s;
          assert k in after;
        } else {
          var i :| 0 <= i < |peers| && peers[i].publicKey == s;
          assert IsMissing(c, peers[i], os, c.parse(s).value);
          assert c.parse(s).value in after;
        }
      }
    }
    forall k | k in after ensures c.show(k) in Cached(peers) || exists s :: s in Cached(peers) && s !in Shown(c, Keys(os)) && !c.Canonical(s) {
      if k !in Keys(os) {
        var p :| p in peers && IsMissing(c, p, os, k);
        assert p.publicKey in Cached(peers);
      }
    }
    if Shown(c, after) == Cached(peers) {
      forall s | s in Cached(peers) && s !in Shown(c, Keys(os)) ensures c.Canonical(s) {
        var k :| k in after && c.show(k) == s;
        assert c.parse(c.show(k)) == Some(k);
      }
    }
  }

  /** The addresses handed back are exactly those of the peers the device loses. */
  lemma {:induction false} FreedExactly(c: Codec, peers: seq<Peer>, os: seq<OsPeer>, ip: Prefix)
    ensures ip in Freed(c, peers, os) <==>
            exists o :: o in os && o.key !in Synchronised(c, peers, os) && Some(ip) in o.allowedIPs
  {
    hide Synchronised;
    FreedOf(c, peers, os, ip);
    forall o | o in os ensures o.key in Synchronised(c, peers, os) <==> c.show(o.key) in Cached(peers) {
      assert o.key in Keys(os);
      SynchronisedKeys(c, peers, os, o.key);
    }
  }

  predicate Frees(c: Codec, peers: seq<Peer>, o: OsPeer, ip: Prefix) {
    c.show(o.key) !in Cached(peers) && Some(ip) in o.allowedIPs
  }

  lemma {:induction false} FreedOf(c: Codec, peers: seq<Peer>, os: seq<OsPeer>, ip: Prefix)
    ensures ip in Freed(c, peers, os) <==> exists o :: o in os && Frees(c, peers, o, ip)
    decreases |os|
  {
    if os != [] {
      var front, last := os[..|os| - 1], os[|os| - 1];
      assert os == front + [last];
      FreedOf(c, peers, front, ip);
      ValidsOf(last.allowedIPs, ip);
      assert (exists o :: o in os && Frees(c, peers, o, ip)) <==>
             (exists o :: o in front && Frees(c, peers, o, ip)) || Frees(c, peers, last, ip);
    }
  }

  lemma {:induction false} ValidsOf(ips: seq<Option<Prefix>>, ip: Prefix)
    ensures ip in Valids(ips) <==> Some(ip) in ips
    decreases |ips|
  {
    if ips != [] {
      assert ips == ips[..|ips| - 1] + [ips[|ips| - 1]];
      ValidsOf(ips[..|ips| - 1], ip);
    }
  }

  lemma {:induction false} NothingMissing(c: Codec, peers: seq<Peer>, os: seq<OsPeer>)
    ensures Missing(c, peers, os) == [] <==>
            forall s :: s in Cached(peers) ==> s in Shown(c, Keys(os)) || c.parse(s).None?
    decreases |peers|
  {
    if peers != [] {
      hide Shown;
      NothingMissing(c, peers[..|peers| - 1], os);
      CachedSplit(peers);
    }
  }

  lemma CachedSplit(peers: seq<Peer>)
    requires peers != []
    ensures Cached(peers) == Cached(peers[..|peers| - 1]) + {peers[|peers| - 1].publicKey}
  {
    forall s | s in Cached(peers) && s != peers[|peers| - 1].publicKey ensures s in Cached(peers[..|peers| - 1]) {
      var i :| 0 <= i < |peers| && peers[i].publicKey == s;
      assert peers[..|peers| - 1][i].publicKey == s;
    }
    forall s | s in Cached(peers[..|peers| - 1]) ensures s in Cached(peers) {
      var i :| 0 <= i < |peers| - 1 && peers[..|peers| - 1][i].publicKey == s;
      assert peers[i].publicKey == s;
    }
  }

  lemma {:induction false} NothingResidual(c: Codec, peers: seq<Peer>, os: seq<OsPeer>)
    ensures Residual(c, peers, os) == [] <==> forall k :: k in Keys(os) ==> c.show(k) in Cached(peers)
    decreases |os|
  {
    if os != [] {
      hide Cached;
      NothingResidual(c, peers, os[..|os| - 1]);
      KeysSplit(os);
    }
  }

  /** Synchronising again changes nothing iff every cached key that can be read at all is written the way keys are shown. */
  lemma SynchronisedOnce(c: Codec, peers: seq<Peer>, os: seq<OsPeer>, again: seq<OsPeer>)
    requires c.Valid() && Keys(again) == Synchronised(c, peers, os)
    ensures Missing(c, peers, again) + Residual(c, peers, again) == [] <==>
            forall s :: s in Cached(peers) && c.parse(s).Some? ==> c.Canonical(s)
  {
    hide Synchronised, Missing, Residual;
    NothingMissing(c, peers, again);
    NothingResidual(c, peers, again);
    var after := Keys(again);
    forall k ensures k in after <==> if k in Keys(os) then c.show(k) in Cached(peers) else Adds(c, peers, os, k) {
      SynchronisedKeys(c, peers, os, k);
    }
    if forall s :: s in Cached(peers) && c.parse(s).Some? ==> c.Canonical(s) {
      forall s | s in Cached(peers) && c.parse(s).Some? ensures s in Shown(c, after) {
        var k := c.parse(s).value;
        if k !in Keys(os) {
          var i :| 0 <= i < |peers| && peers[i].publicKey == s;
          assert IsMissing(c, peers[i], os, k);
        }
        assert k in after && c.show(k) == s;
      }
      forall k | k in after ensures c.show(k) in Cached(peers) {
        if k !in Keys(os) {
          var p :| p in peers && IsMissing(c, p, os, k);
          assert p.publicKey in Cached(peers);
        }
      }
    }
  }

  /** A key written in another way is set and deleted in turn, at every call. */
  lemma KeyFlaps(c: Codec, peers: seq<Peer>, os: seq<OsPeer>, p: Peer, k: Key)
    requires c.Valid() && p in peers && c.parse(p.publicKey) == Some(k) && c.show(k) !in Cached(peers)
    ensures k in Synchronised(c, peers, os) <==> k !in Keys(os)
  {
    SynchronisedKeys(c, peers, os, k);
    if k !in Keys(os) {
      assert IsMissing(c, p, os, k);
    }
  }

  // A codec that is more liberal in reading than in writing: either of two marks may come before the bytes.
  function Spelled(mark: char, k: Key): string {
    [mark] + seq(|k.bytes|, i requires 0 <= i < |k.bytes| => k.bytes[i] as char)
  }

  function Read(s: string): Option<Key> {
    if s != [] && s[0] in "01" && forall i :: 1 <= i < |s| ==> s[i] as int < 256 then
      Some(Key(seq(|s| - 1, i requires 0 <= i < |s| - 1 => s[i + 1] as bv8)))
    else None
  }

  lemma ReadSpelled(mark: char, k: Key)
    requires mark in "01"
    ensures Read(Spelled(mark, k)) == Some(k)
  {
    var s := Spelled(mark, k);
    assert s[0] == mark && forall i :: 1 <= i < |s| ==> s[i] == k.bytes[i - 1] as char;
    assert Read(s).value.bytes == k.bytes;
  }

  /** Such keys exist: two spellings are enough. */
  lemma FlapsArise(k: Key) returns (c: Codec, p: Peer)
    ensures c.Valid() && c.parse(p.publicKey) == Some(k) && c.show(k) !in Cached([p])
  {
    c := Codec(x => Spelled('0', x), Read);
    p := Peer(Spelled('1', k), None, 0, []);
    forall x ensures c.parse(c.show(x)) == Some(x) {
      ReadSpelled('0', x);
    }
    ReadSpelled('1', k);
    assert Spelled('0', k)[0] != Spelled('1', k)[0];
  }
}
