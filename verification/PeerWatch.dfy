/**
 The peer watcher (agent/peerwatch): it pings all peers every round, keeps the merged
 statistics of a report period, and clears them with each report to the controller.
 */
module PeerWatch {
  import opened Net
  import opened PingData

  // ---- The history of the accumulated statistics -----------------------------------

  datatype Step = Round(results: Results) | Report

  function Processed(before: Results, results: Results): Results {
    map ip | ip in results :: if ip in before then Merged(before[ip], results[ip]) else results[ip]
  }

  lemma ProcessedMerged(a: Results, b: Results)
    ensures MergedTables(a, b) - (MergedTables(a, b).Keys - b.Keys) == Processed(a, b)
  {
  }

  function AllCleared(t: Results): Results {
    map ip | ip in t :: CLEARED
  }

  function Watched(history: seq<Step>): Results {
    if history == [] then map[]
    else
      var before := Watched(history[..|history| - 1]);
      match history[|history| - 1]
      case Round(results) => Processed(before, results)
      case Report => AllCleared(before)
  }

  lemma WatchedNext(history: seq<Step>, step: Step)
    ensures Watched(history + [step]) ==
            if step.Round? then Processed(Watched(history), step.results) else AllCleared(Watched(history))
    ensures RoundsSinceReport(history + [step]) == if step.Round? then RoundsSinceReport(history) + 1 else 0
  {
    assert (history + [step])[..|history|] == history;
  }

  function LastHosts(history: seq<Step>): set<Addr> {
    if history == [] then {}
    else
      match history[|history| - 1]
      case Round(results) => results.Keys
      case Report => LastHosts(history[..|history| - 1])
  }

  // The results of a host in the latest rounds: as far back as it took part without a break, and not before
  // the last report.
  function Period(history: seq<Step>, ip: Addr): seq<Stats> {
    if history == [] then []
    else
      match history[|history| - 1]
      case Round(results) => if ip in results then Period(history[..|history| - 1], ip) + [results[ip]] else []
      case Report => []
  }

  function RoundsSinceReport(history: seq<Step>): nat {
    if history == [] || history[|history| - 1].Report? then 0 else RoundsSinceReport(history[..|history| - 1]) + 1
  }

  // What the pinger guarantees of the statistics of a round (see Pinged).
  ghost predicate Fine(s: Stats, lo: int, hi: int) {
    s.Sound() && Between(s, lo, hi)
  }

  ghost predicate FineHistory(history: seq<Step>, lo: int, hi: int) {
    forall step, ip :: step in history && step.Round? && ip in step.results ==> Fine(step.results[ip], lo, hi)
  }

  // The accumulated statistics `s` of a host, against the results `p` they were merged from.
  ghost predicate Accounts(s: Stats, p: seq<Stats>, lo: int, hi: int) {
    Fine(s, lo, hi) && Summarises(s, p) && (p == [] ==> s == CLEARED)
  }

  /** The watcher holds exactly the hosts of the last round. Their counters are exact sums over the period, and the
      average is below the true mean by less than one unit for each round after the first. */
  lemma {:induction false} WatchedAccounts(history: seq<Step>, ip: Addr, lo: int, hi: int)
    requires FineHistory(history, lo, hi) && 0 <= lo <= hi
    ensures Watched(history).Keys == LastHosts(history)
    ensures ip in Watched(history) ==> Accounts(Watched(history)[ip], Period(history, ip), lo, hi)
    decreases |history|
  {
    if history != [] {
      hide Accounts;
      var front, last := history[..|history| - 1], history[|history| - 1];
      assert last in history && forall step :: step in front ==> step in history;
      WatchedAccounts(front, ip, lo, hi);
      if last.Report? {
        AccountsNone(lo, hi);
      } else if ip in last.results {
        var r := last.results[ip];
        assert Fine(r, lo, hi);
        if ip in Watched(front) {
          AccountsMore(Watched(front)[ip], Period(front, ip), r, lo, hi);
        } else {
          assert Period(front, ip) == [] by { if front != [] { assert Watched(front).Keys == LastHosts(front); } }
          AccountsFirst(r, lo, hi);
        }
      }
    }
  }

  lemma AccountsNone(lo: int, hi: int)
    ensures Accounts(CLEARED, [], lo, hi)
  {
  }

  lemma AccountsFirst(r: Stats, lo: int, hi: int)
    requires Fine(r, lo, hi) && 0 <= lo
    ensures Accounts(r, [] + [r], lo, hi)
  {
    SummaryFirst(r);
  }

  lemma AccountsMore(s: Stats, p: seq<Stats>, r: Stats, lo: int, hi: int)
    requires Accounts(s, p, lo, hi) && Fine(r, lo, hi) && 0 <= lo <= hi
    ensures Accounts(Merged(s, r), p + [r], lo, hi)
  {
    MergedSound(s, r);
    MergedBetween(s, r, lo, hi);
    hide Merged, Summarises;
    if p == [] {
      SummaryCleared(r);
    } else {
      SummaryMore(s, p, r);
    }
  }

  /** At most one merge for each round of the report period. */
  lemma {:induction false} PeriodBounded(history: seq<Step>, ip: Addr)
    ensures |Period(history, ip)| <= RoundsSinceReport(history)
    decreases |history|
  {
    if history != [] {
      PeriodBounded(history[..|history| - 1], ip);
    }
  }

  // ---- The report ----------------------------------------------------------------------

  const PING_LOSS := 1.0

  // An address that is not valid is None. `handshake` is the time of the last one.
  datatype WgPeer = WgPeer(publicKey: string, connectionID: int, groupID: int, allowedIPs: seq<Option<Prefix>>, handshake: Option<int>)

  datatype WgDevice = WgDevice(ifName: string, publicKey: string, peers: seq<WgPeer>)

  datatype PeerEntry = PeerEntry(connectionID: int, groupID: int, publicKey: string, ip: Addr, handshake: Option<int>,
                                 loss: real, latency: real)

  datatype IfaceEntry = IfaceEntry(ifName: string, publicKey: string, peers: seq<PeerEntry>)

  // What is pinged for a peer.
  function HostOf(p: WgPeer): Option<Addr> {
    if p.allowedIPs == [] || p.allowedIPs[0].None? then None else Some(p.allowedIPs[0].value.addr)
  }

  function HostsOf(peers: seq<WgPeer>): set<Addr> {
    set i | 0 <= i < |peers| && HostOf(peers[i]).Some? :: HostOf(peers[i]).value
  }

  lemma HostsOfMore(peers: seq<WgPeer>, p: WgPeer)
    ensures HostsOf(peers + [p]) == HostsOf(peers) + if HostOf(p).Some? then {HostOf(p).value} else {}
  {
    var all := peers + [p];
    assert forall i :: 0 <= i < |peers| ==> all[i] == peers[i];
    assert all[|peers|] == p;
  }

  function Targets(wgdevs: seq<WgDevice>): set<Addr> {
    set i, ip | 0 <= i < |wgdevs| && ip in HostsOf(wgdevs[i].peers) :: ip
  }

  function EntryOf(p: WgPeer, ip: Addr, stats: Stats): PeerEntry {
    PeerEntry(p.connectionID, p.groupID, p.publicKey, ip, p.handshake,
              if stats.Valid() then stats.Loss() else PING_LOSS,
              if stats.Valid() then stats.Latency() else 0.0)
  }

  function EntriesOf(peers: seq<WgPeer>, table: Results): seq<PeerEntry> {
    if peers == [] then []
    else
      var p := peers[|peers| - 1];
      EntriesOf(peers[..|peers| - 1], table)
      + if HostOf(p).Some? && HostOf(p).value in table then [EntryOf(p, HostOf(p).value, table[HostOf(p).value])] else []
  }

  function MessageOf(wgdevs: seq<WgDevice>, table: Results): seq<IfaceEntry> {
    seq(|wgdevs|, i requires 0 <= i < |wgdevs| =>
      IfaceEntry(wgdevs[i].ifName, wgdevs[i].publicKey, EntriesOf(wgdevs[i].peers, table)))
  }

  // The entry describes the peer, with the exact loss of the results p, and their mean latency rounded down by
  // less than one nanosecond for each merge.
  ghost predicate Reports(e: PeerEntry, peer: WgPeer, p: seq<Stats>) {
    && peer.allowedIPs != [] && peer.allowedIPs[0].Some? && e.ip == peer.allowedIPs[0].value.addr
    && e.publicKey == peer.publicKey && e.handshake == peer.handshake
    && e.connectionID == peer.connectionID && e.groupID == peer.groupID
    && (TotalTx(p) > 0 ==> e.loss * TotalTx(p) as real == (TotalTx(p) - TotalRx(p)) as real)
    && (TotalTx(p) == 0 ==> e.loss == PING_LOSS && e.latency == 0.0)
    && (TotalRx(p) == 0 ==> e.latency == 0.0)
    && (TotalRx(p) > 0 ==>
          var sum := e.latency * MILLISECOND * TotalRx(p) as real;
          sum <= TotalWeight(p) as real <= sum + ((|p| - 1) * (TotalRx(p) - 1)) as real)
  }

  function Reachable(peers: seq<WgPeer>): seq<WgPeer> {
    if peers == [] then []
    else
      var p := peers[|peers| - 1];
      Reachable(peers[..|peers| - 1]) + if HostOf(p).Some? then [p] else []
  }

  /** A report lists every peer that has a host to ping, in the order of the device, and its loss is that of all
      requests and replies of the period. */
  lemma {:induction false} ReportExact(history: seq<Step>, peers: seq<WgPeer>, lo: int, hi: int)
    requires FineHistory(history, lo, hi) && 0 <= lo <= hi && HostsOf(peers) <= LastHosts(history)
    ensures var es := EntriesOf(peers, Watched(history)); var ps := Reachable(peers);
            |es| == |ps| && forall i :: 0 <= i < |es| ==> Reports(es[i], ps[i], Period(history, es[i].ip))
  {
    if peers != [] {
      hide Watched, FineHistory, LastHosts, Reports;
      var front, p := peers[..|peers| - 1], peers[|peers| - 1];
      assert HostsOf(front) <= HostsOf(peers) by {
        assert forall i :: 0 <= i < |front| ==> front[i] == peers[i];
      }
      ReportExact(history, front, lo, hi);
      if HostOf(p).Some? {
        var ip := HostOf(p).value;
        assert ip in HostsOf(peers);
        WatchedAccounts(history, ip, lo, hi);
        EntryReports(p, ip, Watched(history)[ip], Period(history, ip), lo, hi);
      }
    }
  }

  lemma EntryReports(peer: WgPeer, ip: Addr, s: Stats, p: seq<Stats>, lo: int, hi: int)
    requires HostOf(peer) == Some(ip) && Accounts(s, p, lo, hi)
    ensures Reports(EntryOf(peer, ip, s), peer, p)
  {
    if s.Valid() {
      LossSum(s);
      if s.rx > 0 {
        LatencySum(s);
      }
    }
    hide Weight, Stats.Latency, Stats.Loss, TotalTx, TotalRx, TotalWeight, Between, HostOf, Stats.Sound;
  }

  /** What is pinged are the first allowed addresses, where they are valid. */
  lemma TargetsExactly(wgdevs: seq<WgDevice>, ip: Addr)
    ensures ip in Targets(wgdevs) <==>
            exists i, j :: 0 <= i < |wgdevs| && 0 <= j < |wgdevs[i].peers| && IsFirstOf(wgdevs[i].peers[j], ip)
  {
    if ip in Targets(wgdevs) {
      var i :| 0 <= i < |wgdevs| && ip in HostsOf(wgdevs[i].peers);
      var j :| 0 <= j < |wgdevs[i].peers| && HostOf(wgdevs[i].peers[j]) == Some(ip);
      assert IsFirstOf(wgdevs[i].peers[j], ip);
    }
    if i, j :| 0 <= i < |wgdevs| && 0 <= j < |wgdevs[i].peers| && IsFirstOf(wgdevs[i].peers[j], ip) {
      assert HostOf(wgdevs[i].peers[j]) == Some(ip) && ip in HostsOf(wgdevs[i].peers);
    }
  }

  predicate IsFirstOf(p: WgPeer, ip: Addr) {
    |p.allowedIPs| > 0 && p.allowedIPs[0].Some? && p.allowedIPs[0].value.addr == ip
  }

  // One section for each device, in order, and in it one entry for each of its peers that have a host, in order.
  ghost predicate IsReport(m: seq<IfaceEntry>, wgdevs: seq<WgDevice>, history: seq<Step>) {
    && |m| == |wgdevs|
    && forall i :: 0 <= i < |m| ==> IsSection(m[i], wgdevs[i], history)
  }

  ghost predicate IsSection(e: IfaceEntry, dev: WgDevice, history: seq<Step>) {
    var ps := Reachable(dev.peers);
    && e.ifName == dev.ifName && e.publicKey == dev.publicKey && |e.peers| == |ps|
    && forall j :: 0 <= j < |ps| ==> Reports(e.peers[j], ps[j], Period(history, e.peers[j].ip))
  }

  /** The peers with a host are those with a valid first address, in the order of the device. */
  lemma {:induction false} ReachableExactly(peers: seq<WgPeer>)
    ensures forall p :: p in Reachable(peers) <==> p in peers && |p.allowedIPs| > 0 && p.allowedIPs[0].Some?
    ensures (forall p :: p in peers ==> |p.allowedIPs| > 0 && p.allowedIPs[0].Some?) ==> Reachable(peers) == peers
    ensures |Reachable(peers)| <= |peers|
  {
    if peers != [] {
      var front, p := peers[..|peers| - 1], peers[|peers| - 1];
      assert peers == front + [p];
      ReachableExactly(front);
    }
  }

  /** The message to the controller is a report of the whole period, for all devices whose hosts took part in the last
      round. */
  lemma MessageExact(history: seq<Step>, wgdevs: seq<WgDevice>, lo: int, hi: int)
    requires FineHistory(history, lo, hi) && 0 <= lo <= hi
    requires forall i :: 0 <= i < |wgdevs| ==> HostsOf(wgdevs[i].peers) <= LastHosts(history)
    ensures IsReport(MessageOf(wgdevs, Watched(history)), wgdevs, history)
  {
    hide Watched, FineHistory, LastHosts, Reports, HostsOf, EntriesOf, Reachable;
    var m := MessageOf(wgdevs, Watched(history));
    forall i | 0 <= i < |m| ensures IsSection(m[i], wgdevs[i], history) {
      ReportExact(history, wgdevs[i].peers, lo, hi);
    }
  }

  // The hosts that have just been pinged are those of the devices.
  lemma JustPinged(history: seq<Step>, wgdevs: seq<WgDevice>, results: Results)
    requires results.Keys == Targets(wgdevs)
    ensures forall i :: 0 <= i < |wgdevs| ==> HostsOf(wgdevs[i].peers) <= LastHosts(history + [Round(results)])
  {
    hide HostsOf;
  }

  // ---- The watcher --------------------------------------------------------------------

  // What happens to the packets of one ping, host by host.
  type Traffic = map<Addr, seq<Event>>

  function Pings(traffic: Traffic, ip: Addr): seq<Event> {
    if ip in traffic then traffic[ip] else []
  }

  function Pinged(hosts: set<Addr>, traffic: Traffic): Results {
    map ip | ip in hosts :: Run(CLEARED, Pings(traffic, ip))
  }

  lemma PingedHosts(hosts: set<Addr>, traffic: Traffic)
    ensures Pinged(hosts, traffic).Keys == hosts
  {
  }

  /** Every round is fine whatever the traffic: late, duplicate and unrelated replies included. */
  lemma PingedFine(hosts: set<Addr>, traffic: Traffic, lo: int, hi: int)
    requires 0 <= lo <= hi
    requires forall ip :: ip in traffic ==> NonZero(traffic[ip]) && Within(traffic[ip], lo, hi)
    ensures forall ip :: ip in hosts ==> Fine(Pinged(hosts, traffic)[ip], lo, hi)
  {
    forall ip | ip in hosts ensures Fine(Pinged(hosts, traffic)[ip], lo, hi) {
      RunSound(Pings(traffic, ip));
      RunBetween(Pings(traffic, ip), lo, hi);
    }
  }

  class Watcher {
    var pingData: PingData
    var counter: nat
    const controlerSendCount: nat
    ghost var history: seq<Step>

    ghost predicate Valid()
      reads this, pingData, pingData.entries.Values
    {
      && pingData.Valid()
      && pingData.Contents() == Watched(history)
      && counter == RoundsSinceReport(history)
    }

    constructor (controlerSendCount: nat)
      ensures Valid() && history == [] && this.controlerSendCount == controlerSendCount && fresh(pingData)
    {
      pingData := new PingData();
      this.controlerSendCount := controlerSendCount;
      counter, history := 0, [];
    }

    // Merge the results of a round, then drop the hosts that took no part in it.
    method PingProcess(pr: PingData)
      requires pingData.Valid() && pr.Valid() && pr != pingData && pingData.entries.Values !! pr.entries.Values
      modifies pingData, pingData.entries.Values
      ensures pingData.Valid()
      ensures pingData.Contents() == Processed(old(pingData.Contents()), old(pr.Contents()))
      ensures pingData.entries.Values <= old(pingData.entries.Values + pr.entries.Values)
    {
      hide MergedTables, Processed;
      ghost var a, b := pingData.Contents(), pr.Contents();
      pingData.Append(pr);
      ProcessedMerged(a, b);
      var removeIPs := Gone(pr);
      pingData.Del(removeIPs);
    }

    method Gone(pr: PingData) returns (removeIPs: set<Addr>)
      ensures removeIPs == pingData.Contents().Keys - pr.Contents().Keys
    {
      removeIPs := {};
      var todo := pingData.entries.Keys;
      while todo != {}
        invariant todo <= pingData.entries.Keys
        invariant removeIPs == pingData.entries.Keys - todo - pr.entries.Keys
      {
        var ip := Next(todo);
        if ip !in pr.entries {
          removeIPs := removeIPs + {ip};
        }
        todo := todo - {ip};
      }
      assert pingData.Contents().Keys == pingData.entries.Keys && pr.Contents().Keys == pr.entries.Keys;
    }

    method Message2Controller(wgdevs: seq<WgDevice>) returns (resp: Option<seq<IfaceEntry>>)
      requires pingData.Valid()
      modifies this`counter, pingData.entries.Values
      ensures resp.Some? <==> old(counter) + 1 >= controlerSendCount
      ensures resp.None? ==> counter == old(counter) + 1 && pingData.Contents() == old(pingData.Contents())
      ensures resp.Some? ==>
                && counter == 0 && resp.value == MessageOf(wgdevs, old(pingData.Contents()))
                && pingData.Contents() == AllCleared(old(pingData.Contents()))
    {
      counter := counter + 1;
      if counter < controlerSendCount {
        return None;
      }
      var data := Prepare(wgdevs);
      pingData.Reset();
      counter := 0;
      resp := Some(data);
    }

    method Prepare(wgdevs: seq<WgDevice>) returns (data: seq<IfaceEntry>)
      ensures data == MessageOf(wgdevs, pingData.Contents())
    {
      data := [];
      for i := 0 to |wgdevs|
        invariant data == MessageOf(wgdevs, pingData.Contents())[..i]
      {
        var peers := PrepareDevice(wgdevs[i]);
        data := data + [IfaceEntry(wgdevs[i].ifName, wgdevs[i].publicKey, peers)];
      }
    }

    method PrepareDevice(wgdev: WgDevice) returns (peers: seq<PeerEntry>)
      ensures peers == EntriesOf(wgdev.peers, pingData.Contents())
    {
      peers := [];
      for i := 0 to |wgdev.peers|
        invariant peers == EntriesOf(wgdev.peers[..i], pingData.Contents())
      {
        var p := wgdev.peers[i];
        assert wgdev.peers[..i + 1][..i] == wgdev.peers[..i];
        if p.allowedIPs == [] || p.allowedIPs[0].None? {
          continue;
        }
        var ip := p.allowedIPs[0].value.addr;
        var entry := PeerEntry(p.connectionID, p.groupID, p.publicKey, ip, p.handshake, 0.0, 0.0);
        if p.handshake.None? {
          entry := entry.(loss := PING_LOSS);
        }
        if ip in pingData.entries {
          var stats := pingData.entries[ip].Value();
          if stats.Valid() {
            entry := entry.(loss := stats.Loss(), latency := stats.Latency());
          } else {
            entry := entry.(loss := PING_LOSS);
          }
          peers := peers + [entry];
        }
      }
      assert wgdev.peers[..|wgdev.peers|] == wgdev.peers;
    }

    // Ping the hosts of all peers, with statistics of their own for the round.
    method MonitorPeers(wgdevs: seq<WgDevice>, traffic: Traffic)
      requires pingData.Valid()
      modifies pingData, pingData.entries.Values
      ensures pingData.Valid()
      ensures pingData.Contents() == Processed(old(pingData.Contents()), Pinged(Targets(wgdevs), traffic))
      ensures fresh(pingData.entries.Values - old(pingData.entries.Values))
    {
      hide Processed, Pinged, Targets;
      var hosts := PingList(wgdevs);
      var pr := PingHosts(hosts, traffic);
      PingProcess(pr);
    }

    // One tick of the watcher.
    method Execute(wgdevs: seq<WgDevice>, traffic: Traffic) returns (resp: Option<seq<IfaceEntry>>)
      requires Valid()
      modifies this, pingData, pingData.entries.Values
      ensures Valid() && pingData == old(pingData)
      ensures fresh(pingData.entries.Values - old(pingData.entries.Values))
      ensures var round := old(history) + [Round(Pinged(Targets(wgdevs), traffic))];
              if counter == 0 then resp == Some(MessageOf(wgdevs, Watched(round))) && history == round + [Report]
              else resp == None && history == round
      // What is sent is the report of the period, if the pinger keeps to its bounds.
      ensures forall lo, hi :: resp.Some? && 0 <= lo <= hi && FineHistory(old(history) + [Round(Pinged(Targets(wgdevs), traffic))], lo, hi) ==>
                IsReport(resp.value, wgdevs, old(history) + [Round(Pinged(Targets(wgdevs), traffic))])
      ensures counter == if old(counter) + 1 >= controlerSendCount then 0 else old(counter) + 1
    {
      hide Processed, AllCleared, Pinged, Targets, MessageOf, Watched, RoundsSinceReport, PingData.Contents, Distinct;
      ghost var round, before := Round(Pinged(Targets(wgdevs), traffic)), history;
      WatchedNext(before, round);
      WatchedNext(before + [round], Report);
      MonitorPeers(wgdevs, traffic);
      resp := Message2Controller(wgdevs);
      history := if resp.Some? then before + [round] + [Report] else before + [round];
      hide FineHistory, IsReport;
      assert round.results.Keys == Targets(wgdevs) by { PingedHosts(Targets(wgdevs), traffic); }
      JustPinged(before, wgdevs, round.results);
      forall lo, hi | resp.Some? && 0 <= lo <= hi && FineHistory(before + [round], lo, hi)
        ensures IsReport(resp.value, wgdevs, before + [round])
      {
        MessageExact(before + [round], wgdevs, lo, hi);
      }
    }
  }

  method PingList(wgdevs: seq<WgDevice>) returns (hosts: seq<Addr>)
    ensures Hosts(hosts) == Targets(wgdevs)
  {
    hosts := [];
    for i := 0 to |wgdevs|
      invariant Hosts(hosts) == Targets(wgdevs[..i])
    {
      var peers := wgdevs[i].peers;
      ghost var listed := Hosts(hosts);
      for j := 0 to |peers|
        invariant Hosts(hosts) == listed + HostsOf(peers[..j])
      {
        assert peers[..j + 1] == peers[..j] + [peers[j]];
        HostsOfMore(peers[..j], peers[j]);
        if peers[j].allowedIPs == [] || peers[j].allowedIPs[0].None? {
          continue;
        }
        var ip := peers[j].allowedIPs[0].value.addr;
        assert Hosts(hosts + [ip]) == Hosts(hosts) + {ip};
        hosts := hosts + [ip];
      }
      assert peers[..|peers|] == peers;
      assert wgdevs[..i + 1] == wgdevs[..i] + [wgdevs[i]];
    }
    assert wgdevs[..|wgdevs|] == wgdevs;
  }

  // Send and Recv are called for each host as its packets come and go.
  method Ping(data: PingData, traffic: Traffic)
    requires data.Valid() && forall ip :: ip in data.entries ==> data.entries[ip].Value() == CLEARED
    modifies data.entries.Values
    ensures data.Contents() == Pinged(data.entries.Keys, traffic)
  {
    hide Run;
    var todo := data.entries.Keys;
    while todo != {}
      invariant todo <= data.entries.Keys
      invariant forall ip :: ip in data.entries ==>
                  data.entries[ip].Value() == if ip in todo then CLEARED else Run(CLEARED, Pings(traffic, ip))
    {
      var ip := Next(todo);
      Exchange(data.entries[ip], Pings(traffic, ip));
      todo := todo - {ip};
    }
  }

  method PingHosts(hosts: seq<Addr>, traffic: Traffic) returns (pr: PingData)
    ensures fresh(pr) && fresh(pr.entries.Values)
    ensures pr.Valid() && pr.Contents() == Pinged(Hosts(hosts), traffic)
  {
    hide Run;
    pr := new PingData();
    pr.Add(hosts);
    assert forall ip :: ip in pr.entries ==> pr.Contents()[ip] == CLEARED;
    if pr.entries.Keys != {} {
      Ping(pr, traffic);
    }
  }

  method Exchange(stats: PingStats, events: seq<Event>)
    modifies stats
    ensures stats.Value() == Run(old(stats.Value()), events)
  {
    for i := 0 to |events|
      invariant stats.Value() == Run(old(stats.Value()), events[..i])
    {
      assert events[..i + 1][..i] == events[..i];
      match events[i]
      case Send(number) => stats.Send(number);
      case Recv(number, rtt) => stats.Recv(number, rtt);
      case Reset => stats.Reset();
    }
    assert events[..|events|] == events;
  }
}
