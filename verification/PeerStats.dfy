/**
 Peers with their moving averages (agent/router/peermon/peerlist), and the two
 selectors working on them (routeselector/speed, routeselector/dr).
 */
module PeerStats {
  import opened Net
  import opened SelectedRoutes
  import opened PathSelection
  import opened DirectRoute
  import opened PeerFlags
  import PingData

  const PUBLIC_SUFFIX := "PUBLIC"

  // ---- Averages of a window ------------------------------------------------------

  // The last n samples; what is missing counts as zero.
  function Window(samples: seq<real>, n: nat): (w: seq<real>)
    ensures |w| == n
  {
    if |samples| >= n then samples[|samples| - n..]
    else seq(n - |samples|, _ => 0.0) + samples
  }

  function Sum(s: seq<real>): real {
    if s == [] then 0.0 else Sum(s[..|s| - 1]) + s[|s| - 1]
  }

  function PositiveSum(s: seq<real>): (r: real)
    ensures r >= 0.0
  {
    if s == [] then 0.0
    else PositiveSum(s[..|s| - 1]) + if s[|s| - 1] > 0.0 then s[|s| - 1] else 0.0
  }

  function Positives(s: seq<real>): (n: nat)
    ensures n <= |s|
    ensures n > 0 <==> PositiveSum(s) > 0.0
  {
    if s == [] then 0 else Positives(s[..|s| - 1]) + if s[|s| - 1] > 0.0 then 1 else 0
  }

  // Mean of the samples that have a reply.
  function MeanPositive(s: seq<real>): real {
    if Positives(s) > 0 then PositiveSum(s) / Positives(s) as real else 0.0
  }

  function Mean(s: seq<real>): real {
    if s != [] then Sum(s) / |s| as real else 0.0
  }

  lemma {:induction false} SumsOfParts(a: seq<real>, b: seq<real>)
    ensures Sum(a + b) == Sum(a) + Sum(b)
    ensures PositiveSum(a + b) == PositiveSum(a) + PositiveSum(b)
    ensures Positives(a + b) == Positives(a) + Positives(b)
  {
    if b == [] {
      assert a + b == a;
    } else {
      assert (a + b)[..|a + b| - 1] == a + b[..|b| - 1];
      SumsOfParts(a, b[..|b| - 1]);
    }
  }

  /** The averages do not see where in the ring a window starts. */
  lemma RotationIrrelevant(s: seq<real>, i: nat)
    requires i <= |s|
    ensures var r := s[i..] + s[..i];
            Sum(r) == Sum(s) && PositiveSum(r) == PositiveSum(s) && Positives(r) == Positives(s)
  {
    hide Sum, PositiveSum, Positives;
    var a, b := s[..i], s[i..];
    assert s == a + b;
    SumsOfParts(b, a);
    SumsOfParts(a, b);
  }

  lemma PositiveMean(s: seq<real>)
    ensures MeanPositive(s) >= 0.0
    ensures Positives(s) > 0 ==> MeanPositive(s) > 0.0
  {
    if Positives(s) > 0 {
      Quotient(PositiveSum(s), Positives(s) as real);
    }
  }

  lemma Quotient(a: real, b: real)
    requires a > 0.0 && b > 0.0
    ensures a / b > 0.0
  {
    assert a == (a / b) * b;
  }

  /** The window is the newest samples in order: one more sample pushes the oldest out. */
  lemma WindowPush(samples: seq<real>, n: nat, x: real)
    requires n > 0
    ensures Window(samples + [x], n) == Window(samples, n)[1..] + [x]
  {
    var w, w' := Window(samples, n), Window(samples + [x], n);
    forall i | 0 <= i < n ensures w'[i] == (w[1..] + [x])[i] {
      if |samples| >= n {
        assert w[i..] == samples[|samples| - n + i..];
      }
    }
  }

  // Writing at the index of a ring and advancing it drops the oldest element.
  lemma RingPush(s: seq<real>, i: nat, x: real)
    requires i < |s|
    ensures var t := s[i := x]; var j := if i + 1 >= |s| then 0 else i + 1;
            t[j..] + t[..j] == (s[i..] + s[..i])[1..] + [x]
  {
  }

  // ---- A peer as a value -------------------------------------------------------------

  // The configuration of a peer, and every sample ever added.
  datatype Record = Record(publicKey: string, connectionID: int, ifname: string, flags: bv8, latencies: seq<real>, losses: seq<real>)

  const BLANK := Record("", 0, "", PIF_NONE, [], [])

  predicate HasSuffix(s: string, suffix: string) {
    |s| >= |suffix| && s[|s| - |suffix|..] == suffix
  }

  predicate ValidStats(flags: bv8, latencies: seq<real>, losses: seq<real>) {
    flags == PIF_NONE && (Sum(latencies) > 0.0 || Sum(losses) > 0.0)
  }

  // What the selectors see of it, with windows of n samples.
  function StatsOf(r: Record, n: nat): Stats {
    var lat, los := Window(r.latencies, n), Window(r.losses, n);
    Stats(ValidStats(r.flags, lat, los), Mean(los), MeanPositive(lat),
          Positives(lat) < n, HasSuffix(r.ifname, PUBLIC_SUFFIX), r.connectionID)
  }

  function ViewOf(rs: map<Prefix, Record>, n: nat): Peers {
    map p | p in rs :: StatsOf(rs[p], n)
  }

  function Added(r: Record, ifname: string, pubKey: string, connID: int, disabled: bool): Record {
    Record(pubKey, connID, ifname, AddedFlags(r.flags, disabled), r.latencies, r.losses)
  }

  function Marked(r: Record): Record {
    r.(flags := DeletedFlags(r.flags))
  }

  function Pinged(r: Record, ip: Prefix, results: PingData.Results): Record {
    if r.flags == PIF_NONE && ip.addr in results then
      r.(latencies := r.latencies + [results[ip.addr].Latency()], losses := r.losses + [results[ip.addr].Loss()])
    else r
  }

  /** A peer that is added, once more or for the first time, or marked for deletion, is not compared with others
      before the next commit. */
  lemma PendingInvalid(r: Record, ifname: string, pubKey: string, connID: int, disabled: bool, n: nat)
    ensures !StatsOf(Added(r, ifname, pubKey, connID, disabled), n).valid && !StatsOf(Marked(r), n).valid
  {
    var flags := WithFlag(r.flags, PIF_ADD_PENDING);
    FlagBits(r.flags, PIF_ADD_PENDING, PIF_ADD_PENDING);
    FlagBits(flags, PIF_DEL_PENDING, PIF_ADD_PENDING);
    FlagBits(WithoutFlag(flags, PIF_DEL_PENDING), PIF_DISABLED, PIF_ADD_PENDING);
    FlagBits(r.flags, PIF_DEL_PENDING, PIF_DEL_PENDING);
    hide WithFlag, WithoutFlag, HasFlag;
  }

  /** The sample that a round adds: the latency comes from the average time of the host's replies, the loss from its
      requests and replies; a host without replies has no latency. A pending or disabled peer, or one that is not in the
      results, gets none. */
  lemma SampleExact(r: Record, ip: Prefix, results: PingData.Results)
    ensures var r' := Pinged(r, ip, results);
            && r'.flags == r.flags && r'.ifname == r.ifname && r'.publicKey == r.publicKey && r'.connectionID == r.connectionID
            && (r.flags != PIF_NONE || ip.addr !in results ==> r' == r)
    ensures r.flags == PIF_NONE && ip.addr in results ==>
              var r', s, n := Pinged(r, ip, results), results[ip.addr], |r.latencies|;
              && |r'.latencies| == n + 1 && r'.latencies[..n] == r.latencies
              && |r'.losses| == |r.losses| + 1 && r'.losses[..|r.losses|] == r.losses
              && (s.Valid() ==> r'.losses[|r.losses|] * s.tx as real == (s.tx - s.rx) as real)
              && (s.Valid() && s.rx > 0 ==> r'.latencies[n] * PingData.MILLISECOND == s.avgRtt as real)
              && (!s.Valid() || s.rx == 0 ==> r'.latencies[n] == 0.0)
  {
    if ip.addr in results && results[ip.addr].Valid() {
      PingData.LossSum(results[ip.addr]);
    }
  }

  /** A configured peer takes over what it is configured with, and keeps its samples; its flags are those of an addition. */
  lemma AddedExact(r: Record, ifname: string, pubKey: string, connID: int, disabled: bool, f: bv8)
    requires IsFlag(f)
    ensures var a := Added(r, ifname, pubKey, connID, disabled);
            && a.ifname == ifname && a.publicKey == pubKey && a.connectionID == connID
            && a.latencies == r.latencies && a.losses == r.losses
            && (HasFlag(a.flags, f) <==> f == PIF_ADD_PENDING || (f == PIF_DISABLED && (disabled || HasFlag(r.flags, PIF_DISABLED))))
    ensures var d := Marked(r);
            d == r.(flags := d.flags) && (HasFlag(d.flags, f) <==> f == PIF_DEL_PENDING || HasFlag(r.flags, f))
  {
    PendingFlags(r.flags, disabled, f);
  }

  lemma {:induction false} AllPositive(s: seq<real>)
    ensures Positives(s) == |s| <==> forall i :: 0 <= i < |s| ==> s[i] > 0.0
  {
    if s != [] {
      AllPositive(s[..|s| - 1]);
    }
  }

  lemma SuffixExactly(s: string, suffix: string)
    ensures HasSuffix(s, suffix) <==> exists front :: s == front + suffix
  {
    if HasSuffix(s, suffix) {
      assert s == s[..|s| - |suffix|] + suffix;
    }
  }

  lemma {:induction false} SomePositive(s: seq<real>)
    requires forall i :: 0 <= i < |s| ==> s[i] >= 0.0
    ensures Sum(s) >= 0.0
    ensures Sum(s) > 0.0 <==> exists i :: 0 <= i < |s| && s[i] > 0.0
  {
    if s != [] {
      SomePositive(s[..|s| - 1]);
    }
  }

  // Some of the last n samples is positive.
  ghost predicate Recently(samples: seq<real>, n: nat) {
    exists i :: 0 <= i < |samples| && |samples| - n <= i && samples[i] > 0.0
  }

  lemma WindowRecently(samples: seq<real>, n: nat)
    requires forall i :: 0 <= i < |samples| ==> samples[i] >= 0.0
    ensures Sum(Window(samples, n)) > 0.0 <==> Recently(samples, n)
  {
    var w := Window(samples, n);
    SomePositive(w);
    if Recently(samples, n) {
      var i :| 0 <= i < |samples| && |samples| - n <= i && samples[i] > 0.0;
      assert w[i - (|samples| - n)] == samples[i];
    }
    if i :| 0 <= i < n && w[i] > 0.0 {
      assert samples[i + |samples| - n] == w[i];
    }
  }

  /** What the selectors see of a peer: it is valid iff it is settled and has latency or loss among its last n samples, public
      iff its interface is so called, and its loss and latency are the means over these samples, of those with a reply for
      the latency. */
  lemma StatsExact(r: Record, n: nat)
    requires n >= 1
    requires forall i :: 0 <= i < |r.latencies| ==> r.latencies[i] >= 0.0
    requires forall i :: 0 <= i < |r.losses| ==> r.losses[i] >= 0.0
    ensures var s := StatsOf(r, n);
            && (s.valid <==> r.flags == PIF_NONE && (Recently(r.latencies, n) || Recently(r.losses, n)))
            && (s.public <==> exists front :: r.ifname == front + "PUBLIC") && s.connectionID == r.connectionID
            && s.loss * n as real == Sum(Window(r.losses, n))
            && (s.latency > 0.0 <==> Recently(r.latencies, n))
  {
    hide Window, Sum, Mean, MeanPositive, Positives, PositiveSum, Recently, HasSuffix;
    WindowRecently(r.latencies, n);
    WindowRecently(r.losses, n);
    SuffixExactly(r.ifname, PUBLIC_SUFFIX);
    WindowFull(r.latencies, n);
    WindowFull(r.losses, n);
    MeanTimes(Window(r.losses, n));
    LatencyTimes(Window(r.latencies, n));
  }

  /** With a reply in each of the last n rounds the latency is the mean of these samples. */
  lemma LatencyExact(r: Record, n: nat)
    requires 1 <= n <= |r.latencies| && forall i :: |r.latencies| - n <= i < |r.latencies| ==> r.latencies[i] > 0.0
    ensures StatsOf(r, n).latency * n as real == Sum(r.latencies[|r.latencies| - n..])
  {
    LatencyTimes(r.latencies[|r.latencies| - n..]);
    hide Sum, MeanPositive, Positives, PositiveSum;
  }

  lemma WindowFull(samples: seq<real>, n: nat)
    requires forall i :: 0 <= i < |samples| ==> samples[i] >= 0.0
    ensures forall i :: 0 <= i < n ==> Window(samples, n)[i] >= 0.0
    ensures |samples| >= n ==> Window(samples, n) == samples[|samples| - n..]
  {
  }

  lemma MeanTimes(s: seq<real>)
    requires s != [] && forall i :: 0 <= i < |s| ==> s[i] >= 0.0
    ensures Mean(s) * |s| as real == Sum(s)
    ensures (forall i :: 0 <= i < |s| ==> s[i] == 0.0) ==> Mean(s) == 0.0
  {
    SomePositive(s);
    TimesQuotient(Sum(s), |s| as real);
  }

  lemma LatencyTimes(s: seq<real>)
    requires s != [] && forall i :: 0 <= i < |s| ==> s[i] >= 0.0
    ensures MeanPositive(s) > 0.0 <==> Sum(s) > 0.0
    ensures (forall i :: 0 <= i < |s| ==> s[i] > 0.0) ==> MeanPositive(s) * |s| as real == Sum(s)
  {
    hide Sum, PositiveSum, Positives, MeanPositive;
    PositivesSum(s);
    AllPositive(s);
    MeanOf(s);
  }

  lemma MeanOf(s: seq<real>)
    ensures MeanPositive(s) > 0.0 <==> PositiveSum(s) > 0.0
    ensures MeanPositive(s) * Positives(s) as real == PositiveSum(s)
  {
    hide PositiveSum, Positives;
    Share(PositiveSum(s), Positives(s), MeanPositive(s));
  }

  lemma Share(p: real, k: nat, m: real)
    requires p >= 0.0 && (k > 0 <==> p > 0.0)
    requires if k > 0 then m == p / k as real else m == 0.0
    ensures (m > 0.0 <==> p > 0.0) && m * k as real == p
  {
    if k > 0 {
      var d := k as real;
      assert m == p / d;
      Quotient(p, d);
      TimesQuotient(p, d);
    }
  }

  lemma TimesQuotient(a: real, b: real)
    requires b > 0.0
    ensures (a / b) * b == a
  {
  }

  // Without negative samples the positive ones are all that counts.
  lemma {:induction false} PositivesSum(s: seq<real>)
    requires forall i :: 0 <= i < |s| ==> s[i] >= 0.0
    ensures PositiveSum(s) == Sum(s)
  {
    if s != [] {
      PositivesSum(s[..|s| - 1]);
    }
  }

  /** The statistics are complete iff each of the last n rounds that counted had a reply. */
  lemma CompleteExactly(r: Record, n: nat)
    requires n >= 1
    ensures !StatsOf(r, n).incomplete <==>
            |r.latencies| >= n && forall i :: |r.latencies| - n <= i < |r.latencies| ==> r.latencies[i] > 0.0
  {
    var w := Window(r.latencies, n);
    AllPositive(w);
    if |r.latencies| >= n {
      forall i | |r.latencies| - n <= i < |r.latencies| ensures r.latencies[i] == w[i - (|r.latencies| - n)] {
      }
    } else {
      assert w[0] == 0.0;
    }
  }

  // ---- One peer --------------------------------------------------------------------

  class PeerInfo {
    var publicKey: string
    var connectionID: int
    var ifname: string
    var flags: bv8
    const latency: array<real>
    const loss: array<real>
    var index: nat
    ghost var latencies: seq<real>  // every sample ever added
    ghost var losses: seq<real>
    ghost var stats: Stats          // the peer as the selectors see it

    ghost predicate Inv()
      reads this, latency, loss
    {
      Ring() && stats == Val()
    }

    // Read from the index on, the two rings hold the windows.
    ghost predicate Ring()
      reads `index, `latencies, `losses, latency, loss
    {
      var n := latency.Length;
      && latency != loss && loss.Length == n && index < n
      && latency[index..] + latency[..index] == Window(latencies, n)
      && loss[index..] + loss[..index] == Window(losses, n)
    }

    constructor (avgCount: nat)
      requires avgCount >= 1
      ensures Inv() && latency.Length == avgCount && Contents() == BLANK && fresh(latency) && fresh(loss)
    {
      publicKey, connectionID, ifname, flags := "", 0, "", PIF_NONE;
      latency := new real[avgCount](_ => 0.0);
      loss := new real[avgCount](_ => 0.0);
      index := 0;
      latencies, losses := [], [];
      new;
      stats := Val();
    }

    // The loop body of PingProcess.
    method Sample(ip: Prefix, results: PingData.Results)
      requires Inv()
      modifies this`index, this`latencies, this`losses, this`stats, latency, loss
      ensures Inv() && Contents() == Pinged(old(Contents()), ip, results)
    {
      hide PeerInfo.Inv;
      if flags == PIF_NONE && ip.addr in results {
        Add(results[ip.addr].Latency(), results[ip.addr].Loss());
      }
    }

    method Add(lat: real, los: real)
      requires Inv()
      modifies this`index, this`latencies, this`losses, this`stats, latency, loss
      ensures Inv()
      ensures latencies == old(latencies) + [lat] && losses == old(losses) + [los]
    {
      hide PeerInfo.Ring, PeerInfo.Val;
      Push(lat, los);
      stats := Val();
    }

    // What AddPeer does with an entry, known or new.
    method Configure(ifname: string, pubKey: string, connID: int, disabled: bool)
      requires Inv()
      modifies this`ifname, this`publicKey, this`connectionID, this`flags, this`stats
      ensures Inv() && Contents() == Added(old(Contents()), ifname, pubKey, connID, disabled)
    {
      hide PeerInfo.Ring, StatsOf, WithFlag, WithoutFlag;
      this.ifname, publicKey, connectionID := ifname, pubKey, connID;
      flags := WithFlag(flags, PIF_ADD_PENDING);
      flags := WithoutFlag(flags, PIF_DEL_PENDING);
      if disabled {
        flags := WithFlag(flags, PIF_DISABLED);
      }
      stats := Val();
    }

    method PutFlags(f: bv8)
      requires Inv()
      modifies this`flags, this`stats
      ensures Inv() && Contents() == old(Contents()).(flags := f)
    {
      hide PeerInfo.Ring, StatsOf;
      flags := f;
      stats := Val();
    }

    method Push(lat: real, los: real)
      requires Ring()
      modifies this`index, this`latencies, this`losses, latency, loss
      ensures Ring()
      ensures latencies == old(latencies) + [lat] && losses == old(losses) + [los]
    {
      WindowPush(latencies, latency.Length, lat);
      WindowPush(losses, latency.Length, los);
      RingPush(latency[..], index, lat);
      RingPush(loss[..], index, los);
      hide Window;
      latency[index] := lat;
      loss[index] := los;
      latencies, losses := latencies + [lat], losses + [los];
      index := index + 1;
      if index >= latency.Length {
        index := 0;
      }
    }

    method Latency() returns (r: real)
      requires Inv()
      ensures r == MeanPositive(Window(latencies, latency.Length))
    {
      var count, sum := 0, 0.0;
      for i := 0 to latency.Length
        invariant sum == PositiveSum(latency[..i]) && count == Positives(latency[..i])
      {
        assert latency[..i + 1][..i] == latency[..i];
        if latency[i] > 0.0 {
          sum := sum + latency[i];
          count := count + 1;
        }
      }
      assert latency[..latency.Length] == latency[..];
      RotationIrrelevant(latency[..], index);
      assert latency[..][index..] + latency[..][..index] == latency[index..] + latency[..index];
      if count > 0 {
        return sum / count as real;
      }
      r := 0.0;
    }

    method Loss() returns (r: real)
      requires Inv()
      ensures r == Mean(Window(losses, latency.Length))
    {
      var count, sum := 0, 0.0;
      for i := 0 to loss.Length
        invariant sum == Sum(loss[..i]) && count == i
      {
        assert loss[..i + 1][..i] == loss[..i];
        sum := sum + loss[i];
        count := count + 1;
      }
      assert loss[..loss.Length] == loss[..];
      RotationIrrelevant(loss[..], index);
      assert loss[..][index..] + loss[..][..index] == loss[index..] + loss[..index];
      if count > 0 {
        return sum / count as real;
      }
      r := 0.0;
    }

    method StatsIncomplete() returns (b: bool)
      requires Inv()
      ensures b <==> Positives(Window(latencies, latency.Length)) < latency.Length
    {
      var count := 0;
      for i := 0 to latency.Length
        invariant count == Positives(latency[..i])
      {
        assert latency[..i + 1][..i] == latency[..i];
        if latency[i] > 0.0 {
          count := count + 1;
        }
      }
      assert latency[..latency.Length] == latency[..];
      RotationIrrelevant(latency[..], index);
      assert latency[..][index..] + latency[..][..index] == latency[index..] + latency[..index];
      b := count != latency.Length;
    }

    method Valid() returns (b: bool)
      requires Inv()
      ensures b <==> IsValid()
    {
      if flags != PIF_NONE {
        return false;
      }
      var sumLatency, sumLoss := 0.0, 0.0;
      for i := 0 to latency.Length
        invariant sumLatency == Sum(latency[..i])
      {
        assert latency[..i + 1][..i] == latency[..i];
        sumLatency := sumLatency + latency[i];
      }
      for i := 0 to loss.Length
        invariant sumLoss == Sum(loss[..i])
      {
        assert loss[..i + 1][..i] == loss[..i];
        sumLoss := sumLoss + loss[i];
      }
      assert latency[..latency.Length] == latency[..] && loss[..loss.Length] == loss[..];
      RotationIrrelevant(latency[..], index);
      RotationIrrelevant(loss[..], index);
      assert latency[..][index..] + latency[..][..index] == latency[index..] + latency[..index];
      assert loss[..][index..] + loss[..][..index] == loss[index..] + loss[..index];
      b := sumLatency > 0.0 || sumLoss > 0.0;
    }

    ghost predicate IsValid()
      reads `flags, `latencies, `losses
    {
      ValidStats(flags, Window(latencies, latency.Length), Window(losses, latency.Length))
    }

    predicate IsPublic()
      reads `ifname
    {
      HasSuffix(ifname, PUBLIC_SUFFIX)
    }

    ghost function Contents(): Record
      reads `publicKey, `connectionID, `ifname, `flags, `latencies, `losses
    {
      Record(publicKey, connectionID, ifname, flags, latencies, losses)
    }

    ghost function Val(): Stats
      reads `publicKey, `connectionID, `ifname, `flags, `latencies, `losses
    {
      StatsOf(Contents(), latency.Length)
    }

    lemma Measured()
      requires Inv()
      ensures stats.latency >= 0.0 && (!stats.incomplete ==> stats.latency > 0.0)
    {
      PositiveMean(Window(latencies, latency.Length));
    }
  }

  // ---- What the methods below compute, on the peers as values --------------------------

  ghost predicate IsPeer<T>(ps: map<Prefix, T>, p: Prefix) {
    p in ps
  }

  // Some public peer, if there is one.
  ghost predicate IsPublicRoute(ps: Peers, pub: Option<Prefix>) {
    if pub.Some? then pub.value in ps && ps[pub.value].public else forall p :: p in ps ==> !ps[p].public
  }

  ghost predicate HasLatency(ps: Peers, p: Option<Prefix>, latency: real) {
    p.Some? && p.value in ps && ps[p.value].latency == latency >= 0.0
  }

  ghost predicate CanCompare(ps: Peers, best: Option<Prefix>, ip: Prefix) {
    ip in ps && (best.Some? ==> best.value in ps)
  }

  ghost predicate IsBetter(ps: Peers, best: Option<Prefix>, ip: Prefix, r: Option<Prefix>) {
    CanCompare(ps, best, ip) && r == Some(Better(ps, best, ip))
  }

  ghost predicate SpeedStep(ps: Peers, cfg: Config, cur: Option<Prefix>, new': Prefix, r: Prefix, why: Reason) {
    new' in ps && r == SpeedNext(ps, cfg, cur, new') && why == SpeedReason(ps, cfg, cur, new')
  }

  ghost predicate DrStep(ps: Peers, cfg: Config, st: DrState, new': Prefix, pub: Option<Prefix>, last: Reason,
                         r: DrState, why: Reason) {
    && new' in ps && (pub.Some? ==> pub.value in ps)
    && r == DrNext(ps, cfg, st, new', pub) && why == DrReason(ps, cfg, st, new', pub, last)
  }

  ghost predicate NewStep(ps: Peers, cfg: Config, st: DrState, new': Prefix, r: DrState) {
    new' in ps && r == TowardsNew(ps, cfg, st, new')
  }

  ghost predicate PublicStep(ps: Peers, cfg: Config, st: DrState, pub: Prefix, r: DrState) {
    pub in ps && r == TowardsPublic(ps, cfg, st, pub)
  }

  // ---- The peers of a group ----------------------------------------------------------

  // A loop over the peers has visited all but `todo`, and makes of each what `f` says.
  ghost function UpdatedBut(rs: map<Prefix, Record>, todo: set<Prefix>, f: (Prefix, Record) -> Record): map<Prefix, Record> {
    map p | p in rs :: if p in todo then rs[p] else f(p, rs[p])
  }

  lemma UpdatedNone(rs: map<Prefix, Record>, f: (Prefix, Record) -> Record)
    ensures UpdatedBut(rs, rs.Keys, f) == rs
  {
  }

  lemma UpdatedNext(rs: map<Prefix, Record>, todo: set<Prefix>, f: (Prefix, Record) -> Record, ip: Prefix)
    requires ip in todo && ip in rs
    ensures var now := UpdatedBut(rs, todo, f);
            IsPeer(now, ip) && now[ip] == rs[ip] && UpdatedBut(rs, todo - {ip}, f) == now[ip := f(ip, now[ip])]
  {
  }

  lemma UpdatedAll(rs: map<Prefix, Record>, f: (Prefix, Record) -> Record)
    ensures UpdatedBut(rs, {}, f) == map p | p in rs :: f(p, rs[p])
  {
  }

  function Listed(addrs: seq<Prefix>): set<Prefix> {
    set p | p in addrs
  }

  // No two peers share an object.
  ghost predicate Separate(peers: map<Prefix, PeerInfo>, count: nat) {
    && (forall p :: p in peers ==> peers[p].latency.Length == count)
    && (forall p, q :: p in peers && q in peers && p != q ==>
          peers[p] != peers[q] && {peers[p].latency, peers[p].loss} !! {peers[q].latency, peers[q].loss})
  }

  // Except for the peer at ip itself.
  ghost predicate SharesNone(e: PeerInfo, peers: map<Prefix, PeerInfo>, ip: Prefix) {
    forall q :: q in peers && q != ip ==>
      peers[q] != e && {peers[q].latency, peers[q].loss} !! {e.latency, e.loss}
  }

  lemma SeparateOthers(peers: map<Prefix, PeerInfo>, count: nat, ip: Prefix)
    requires Separate(peers, count) && ip in peers
    ensures SharesNone(peers[ip], peers, ip) && peers[ip].latency.Length == count
  {
  }

  lemma SeparateNew(peers: map<Prefix, PeerInfo>, count: nat, ip: Prefix, e: PeerInfo)
    requires Separate(peers, count) && ip !in peers && SharesNone(e, peers, ip) && e.latency.Length == count
    ensures Separate(peers[ip := e], count)
  {
  }

  lemma SeparateLess(peers: map<Prefix, PeerInfo>, count: nat, gone: set<Prefix>)
    requires Separate(peers, count)
    ensures Separate(peers - gone, count)
  {
  }

  class PeerList {
    const avgCount: nat
    var peers: map<Prefix, PeerInfo>
    ghost var Repr: set<object>

    ghost predicate Inv()
      reads this, Repr
    {
      && this !in Repr && avgCount >= 1 && Separate(peers, avgCount)
      && (forall p :: p in peers ==> peers[p] in Repr && peers[p].latency in Repr && peers[p].loss in Repr)
      && (forall p {:trigger peers[p].Inv()} :: p in peers ==> peers[p].Inv())
    }

    ghost function View(): Peers
      requires Inv()
      reads this, Repr
    {
      map p | p in peers :: peers[p].stats
    }

    lemma ViewMeasured()
      requires Inv()
      ensures WellMeasured(View())
    {
      forall p | p in peers ensures peers[p].stats.latency >= 0.0 && (!peers[p].stats.incomplete ==> peers[p].stats.latency > 0.0) {
        assert peers[p].Inv();
        peers[p].Measured();
      }
    }

    ghost function Records(): map<Prefix, Record>
      requires Inv()
      reads this, Repr
    {
      map p | p in peers :: peers[p].Contents()
    }

    // The selectors see nothing but the records.
    lemma ViewIs()
      requires Inv()
      ensures View() == ViewOf(Records(), avgCount)
    {
      forall p | p in peers ensures peers[p].stats == StatsOf(peers[p].Contents(), avgCount) {
        assert peers[p].Inv();
      }
    }

    constructor (count: nat)
      requires count >= 1
      ensures Inv() && fresh(Repr) && avgCount == count && peers == map[]
    {
      avgCount, peers, Repr := count, map[], {};
    }

    // A known peer keeps its samples.
    method AddPeer(ifname: string, pubKey: string, endpoint: Prefix, connID: int, disabled: bool)
      requires Inv()
      modifies this, Repr
      ensures Inv() && fresh(Repr - old(Repr)) && peers.Keys == old(peers.Keys) + {endpoint}
      ensures forall p :: p in old(peers) ==> peers[p] == old(peers[p])
      ensures Records() == old(Records())[endpoint :=
                Added(if endpoint in old(peers) then old(Records()[endpoint]) else BLANK, ifname, pubKey, connID, disabled)]
    {
      hide StatsOf, Added, PeerInfo.Inv, PeerInfo.Contents, Separate;
      if endpoint !in peers {
        Insert(endpoint);
      }
      Reconfigure(endpoint, ifname, pubKey, connID, disabled);
    }

    method Reconfigure(endpoint: Prefix, ifname: string, pubKey: string, connID: int, disabled: bool)
      requires Inv() && IsPeer(Records(), endpoint)
      modifies Repr
      ensures Inv() && Repr == old(Repr)
      ensures Records() == old(Records())[endpoint := Added(old(Records()[endpoint]), ifname, pubKey, connID, disabled)]
    {
      hide StatsOf, Added, PeerInfo.Inv, PeerInfo.Contents, Separate;
      SeparateOthers(peers, avgCount, endpoint);
      ghost var before := Records();
      assert peers[endpoint].Inv();
      peers[endpoint].Configure(ifname, pubKey, connID, disabled);
      assert forall q :: q in peers && q != endpoint ==> peers[q].Contents() == before[q];
    }

    method Insert(endpoint: Prefix)
      requires Inv() && endpoint !in peers
      modifies this
      ensures Inv() && fresh(Repr - old(Repr)) && old(Repr) <= Repr && peers.Keys == old(peers.Keys) + {endpoint}
      ensures forall p :: p in old(peers) ==> peers[p] == old(peers[p])
      ensures Records() == old(Records())[endpoint := BLANK]
    {
      hide StatsOf, PeerInfo.Inv, PeerInfo.Contents, Separate;
      var e := new PeerInfo(avgCount);
      SeparateNew(peers, avgCount, endpoint, e);
      peers := peers[endpoint := e];
      Repr := Repr + {e, e.latency, e.loss};
    }

    method DelPeer(endpoint: Prefix)
      requires Inv()
      modifies Repr
      ensures Inv() && Repr == old(Repr)
      ensures endpoint !in peers ==> Records() == old(Records())
      ensures endpoint in peers ==>
                Records() == old(Records())[endpoint := Marked(old(Records()[endpoint]))]
    {
      hide StatsOf, DeletedFlags;
      if endpoint in peers {
        Reflag(endpoint, DeletedFlags(peers[endpoint].flags));
      }
    }

    method Reflag(ip: Prefix, flags: bv8)
      requires Inv() && IsPeer(Records(), ip)
      modifies Repr
      ensures Inv() && Repr == old(Repr) && peers == old(peers)
      ensures Records() == old(Records())[ip := old(Records()[ip]).(flags := flags)]
    {
      hide StatsOf, PeerInfo.Inv, PeerInfo.Contents, Separate;
      SeparateOthers(peers, avgCount, ip);
      ghost var before := Records();
      assert peers[ip].Inv();
      peers[ip].PutFlags(flags);
      assert forall q :: q in peers && q != ip ==> peers[q].Contents() == before[q];
    }

    method Delete(addrs: seq<Prefix>)
      requires Inv()
      modifies this`peers
      ensures Inv() && peers == old(peers) - Listed(addrs) && Records() == old(Records()) - Listed(addrs)
    {
      hide PeerInfo.Inv, PeerInfo.Contents, Separate;
      SeparateLess(peers, avgCount, Listed(addrs));
      for i := 0 to |addrs|
        invariant peers == old(peers) - Listed(addrs[..i])
      {
        assert addrs[..i + 1] == addrs[..i] + [addrs[i]];
        peers := peers - {addrs[i]};
      }
      assert addrs[..|addrs|] == addrs;
    }

    /** One sample for each peer that is settled and found in the results, none for the others. */
    method PingProcess(results: PingData.Results)
      requires Inv()
      modifies Repr
      ensures Inv() && Repr == old(Repr)
      ensures Records() == map p | p in old(Records()) :: Pinged(old(Records())[p], p, results)
    {
      hide PeerList.Inv, PeerList.View, PeerList.Records, UpdatedBut;
      ghost var before, f := Records(), (p: Prefix, r: Record) => Pinged(r, p, results);
      var todo := Keys();
      UpdatedNone(before, f);
      while todo != {}
        invariant Inv() && Repr == old(Repr) && todo <= before.Keys && Records() == UpdatedBut(before, todo, f)
      {
        var ip := Next(todo);
        UpdatedNext(before, todo, f, ip);
        PingOne(ip, results);
        todo := todo - {ip};
      }
      UpdatedAll(before, f);
    }

    method PingOne(ip: Prefix, results: PingData.Results)
      requires Inv() && IsPeer(Records(), ip)
      modifies Repr
      ensures Inv() && Repr == old(Repr) && IsPeer(Records(), ip)
      ensures Records() == old(Records())[ip := Pinged(old(Records()[ip]), ip, results)]
    {
      hide StatsOf, Pinged, PeerInfo.Inv, PeerInfo.Contents, Separate;
      SeparateOthers(peers, avgCount, ip);
      ghost var before := Records();
      assert peers[ip].Inv();
      peers[ip].Sample(ip, results);
      assert forall q :: q in peers && q != ip ==> peers[q].Contents() == before[q];
    }

    method Keys() returns (ks: set<Prefix>)
      requires Inv()
      ensures ks == View().Keys == Records().Keys
    {
      ks := peers.Keys;
    }

    // The loop body of BestRoute.
    method Prefer(best: Option<Prefix>, ip: Prefix) returns (r: Option<Prefix>)
      requires Inv() && CanCompare(View(), best, ip)
      ensures IsBetter(View(), best, ip, r)
    {
      hide Window, Sum, PositiveSum, Positives, Mean, MeanPositive, ValidStats;
      if best.None? {
        return Some(ip);
      }
      assert peers[ip].Inv() && peers[best.value].Inv();
      r := best;
      var valid := peers[ip].Valid();
      if !valid {
        return;
      }
      var loss := peers[ip].Loss();
      var bestLoss := peers[best.value].Loss();
      if loss > bestLoss {
        return;
      }
      if loss < bestLoss {
        return Some(ip);
      }
      var latency := peers[ip].Latency();
      var bestLatency := peers[best.value].Latency();
      if latency > 0.0 && latency < bestLatency {
        return Some(ip);
      }
    }

    // The map is visited in some order; `order` is that order.
    method BestRoute() returns (best: Option<Prefix>, ghost order: seq<Prefix>)
      requires Inv()
      ensures Visited(order, {}, View(), best)
      ensures best.None? <==> View() == map[]
      ensures best.Some? ==> IsMomentaryBest(View(), best.value)
    {
      hide PeerList.Inv, PeerList.View, IsMomentaryBest, WellMeasured, Visited, Better;
      ghost var ps := View();
      best, order := None, [];
      VisitNone(ps);
      var todo := Keys();
      while todo != {}
        invariant Visited(order, todo, ps, best) && todo <= ps.Keys
      {
        var ip :| ip in todo;
        VisitNext(order, todo, ps, best, ip);
        order := order + [ip];
        best := Prefer(best, ip);
        todo := todo - {ip};
      }
      ViewMeasured();
      BestRouteSound(order, ps, best);
    }

    // The last public peer that the iteration meets.
    method PublicRoute() returns (pub: Option<Prefix>)
      requires Inv()
      ensures IsPublicRoute(View(), pub)
    {
      pub := None;
      var todo := peers.Keys;
      while todo != {}
        invariant todo <= peers.Keys
        invariant pub.Some? ==> pub.value in peers && peers[pub.value].stats.public
        invariant pub.None? ==> forall p :: p in peers && p !in todo ==> !peers[p].stats.public
      {
        var ip :| ip in todo;
        assert peers[ip].Inv();
        if peers[ip].IsPublic() {
          pub := Some(ip);
        }
        todo := todo - {ip};
      }
    }
  }

  // ---- The selectors -------------------------------------------------------------------

  // Floating-point a / b >= ratio for latencies, which are not negative: dividing by zero gives
  // infinity, or no number when both are zero.
  predicate RatioReaches(a: real, b: real, ratio: real) {
    if b == 0.0 then a > 0.0 else a / b >= ratio
  }

  lemma RatioMultipliedOut(a: real, b: real, ratio: real)
    requires b > 0.0
    ensures RatioReaches(a, b, ratio) <==> a >= ratio * b
  {
    var q := a / b;
    assert a == q * b;
    if q >= ratio {
      assert (q - ratio) * b >= 0.0;
    } else {
      assert (ratio - q) * b > 0.0;
    }
  }

  lemma ThresholdsMultipliedOut(a: real, b: real, cfg: Config)
    requires a >= 0.0 && b >= 0.0
    ensures b > 0.0 ==> (RatioReaches(a, b, cfg.ratio) && a - b >= cfg.diff <==> Exceeds(a, b, cfg.ratio, cfg.diff))
    ensures RatioReaches(a, b, cfg.ratio / 2.0) && a - b >= cfg.diff / 2.0 <==> ExceedsHalf(a, b, cfg)
  {
    if b > 0.0 {
      RatioMultipliedOut(a, b, cfg.ratio);
      RatioMultipliedOut(a, b, cfg.ratio / 2.0);
    }
  }

  // The parts of the selectors that only read the statistics.
  class Reader {
    const config: Config
    const peerlist: PeerList

    constructor (peerlist: PeerList, cfg: Config)
      ensures this.peerlist == peerlist && config == cfg
    {
      this.peerlist, config := peerlist, cfg;
    }

    // GetPeer, and the averages of the peer found.
    method Measure(ip: Option<Prefix>) returns (ok: bool, loss: real, latency: real, incomplete: bool)
      requires peerlist.Inv()
      ensures var ps := peerlist.View();
              && (ok <==> ip.Some? && ip.value in ps)
              && (if ok then loss == ps[ip.value].loss && latency == ps[ip.value].latency && incomplete == ps[ip.value].incomplete
                  else loss == 0.0 && latency == 0.0)
    {
      hide Window, Sum, PositiveSum, Positives, Mean, MeanPositive, PeerInfo.IsValid;
      ok, loss, latency, incomplete := false, 0.0, 0.0, true;
      if ip.Some? && ip.value in peerlist.peers {
        var peer := peerlist.peers[ip.value];
        assert peer.Inv();
        ok := true;
        loss := peer.Loss();
        latency := peer.Latency();
        incomplete := peer.StatsIncomplete();
      }
    }

    // What BestPath answers for the held route.
    method Announce(best: Option<Prefix>, reason: Reason) returns (route: SelectedRoute)
      requires peerlist.Inv()
      ensures route == Selected(peerlist.View(), config, best, reason)
    {
      hide Window, Sum, PositiveSum, Positives, Mean, MeanPositive, PeerInfo.IsValid;
      route := SelectedRoute(None, 0, reason);
      var ok, loss, _, _ := Measure(best);
      if ok {
        if config.deleteLoss > 0.0 && loss * 100.0 >= config.deleteLoss {
          return DELETED;
        }
        assert peerlist.peers[best.value].Inv();
        route := SelectedRoute(Some(best.value.addr), peerlist.peers[best.value].connectionID, reason);
      }
    }

    method CompareSpeed(cur: Option<Prefix>, newIp: Prefix) returns (r: Prefix, why: Reason)
      requires peerlist.Inv() && IsPeer(peerlist.View(), newIp)
      ensures SpeedStep(peerlist.View(), config, cur, newIp, r, why)
    {
      hide PeerList.View, PeerList.Inv, RatioReaches, Exceeds;
      var _, newLoss, newLatency, newIncomplete := Measure(Some(newIp));
      var prevOK, prevLoss, prevLatency, _ := Measure(cur);
      if !prevOK {
        return newIp, Reason(NewRoute, 0.0, 0.0);
      }
      if newLoss < prevLoss {
        return newIp, Reason(LowerLoss, prevLoss, newLoss);
      }
      if newIncomplete {
        return cur.value, Reason(NoChange, 0.0, 0.0);
      }
      peerlist.ViewMeasured();
      ThresholdsMultipliedOut(prevLatency, newLatency, config);
      if RatioReaches(prevLatency, newLatency, config.ratio) && prevLatency - newLatency >= config.diff {
        return newIp, Reason(LowerLatency, prevLatency, newLatency);
      }
      r, why := cur.value, Reason(NoChange, 0.0, 0.0);
    }

    // `last` is the reason of the call before.
    method CompareDirect(st: DrState, newIp: Prefix, publicIp: Option<Prefix>, last: Reason)
      returns (r: DrState, why: Reason)
      requires peerlist.Inv() && IsPeer(peerlist.View(), newIp)
      requires publicIp.Some? ==> IsPeer(peerlist.View(), publicIp.value)
      ensures DrStep(peerlist.View(), config, st, newIp, publicIp, last, r, why)
    {
      hide PeerList.View, PeerList.Inv, TowardsNew, TowardsPublic, RatioReaches, Exceeds, ExceedsHalf;
      var _, newLoss, newLatency, newIncomplete := Measure(Some(newIp));
      if publicIp.None? {
        return Settle(Some(newIp)), Reason(NewRoute, 0.0, newLatency);
      }
      var _, publicLoss, publicLatency, _ := Measure(publicIp);
      var prevOK, prevLoss, prevLatency, _ := Measure(st.best);
      if newIncomplete {
        if st.best.Some? {
          return Settle(st.best), Reason(NoChange, prevLatency, prevLatency);
        } else if publicLoss == 0.0 && publicLatency > 0.0 {
          return Settle(publicIp), Reason(NewRoute, 0.0, publicLatency);
        }
        return Settle(st.best), last;
      }
      if newIp == publicIp.value {
        if st.best == Some(newIp) {
          return st, Reason(NoChange, prevLatency, newLatency);
        }
        return Settle(publicIp), Reason(LowerLatency, prevLatency, newLatency);
      }
      if publicLoss + prevLoss > 0.0 {
        var newBest, leastLoss, bestLatency := newIp, newLoss, newLatency;
        if publicLoss < leastLoss {
          newBest, leastLoss, bestLatency := publicIp.value, publicLoss, publicLatency;
        }
        if prevOK && prevLoss < leastLoss {
          newBest, leastLoss, bestLatency := st.best.value, prevLoss, prevLatency;
        }
        why := if st.best == Some(newBest) then Reason(NoChange, prevLatency, bestLatency)
               else if prevOK then Reason(LowerLoss, prevLoss, leastLoss)
               else Reason(NewRoute, 0.0, leastLoss);
        return Settle(Some(newBest)), why;
      }
      peerlist.ViewMeasured();
      ThresholdsMultipliedOut(publicLatency, newLatency, config);
      if RatioReaches(publicLatency, newLatency, config.ratio) && publicLatency - newLatency >= config.diff {
        r := CompareNew(st, newIp, prevOK, prevLatency, newLatency);
      } else {
        r := ComparePublic(st, publicIp.value, prevOK, prevLatency, publicLatency);
      }
      why := if r.best == st.best then Reason(NoChange, prevLatency, newLatency)
             else if prevOK then Reason(LowerLatency, prevLatency, newLatency)
             else Reason(NewRoute, 0.0, newLoss);
    }

    method CompareNew(st: DrState, newIp: Prefix, prevOK: bool, prevLatency: real, newLatency: real) returns (r: DrState)
      requires peerlist.Inv() && HasLatency(peerlist.View(), Some(newIp), newLatency) && newLatency > 0.0
      requires if prevOK then HasLatency(peerlist.View(), st.best, prevLatency) else !Holds(peerlist.View(), st)
      ensures NewStep(peerlist.View(), config, st, newIp, r)
    {
      hide PeerList.View, PeerList.Inv, RatioReaches, ExceedsHalf;
      if prevOK {
        ThresholdsMultipliedOut(prevLatency, newLatency, config);
      }
      if !prevOK {
        r := Settle(Some(newIp));
      } else if st.best == Some(newIp) {
        r := Settle(st.best);
      } else if Recommended(st.underdog, config.averageSize, newIp)
           || (RatioReaches(prevLatency, newLatency, config.ratio / 2.0) && prevLatency - newLatency >= config.diff / 2.0) {
        r := Settle(Some(newIp));
      } else {
        r := st.(underdog := Update(st.underdog, newIp));
      }
    }

    method ComparePublic(st: DrState, publicIp: Prefix, prevOK: bool, prevLatency: real, publicLatency: real)
      returns (r: DrState)
      requires peerlist.Inv() && HasLatency(peerlist.View(), Some(publicIp), publicLatency)
      requires if prevOK then HasLatency(peerlist.View(), st.best, prevLatency) else !Holds(peerlist.View(), st)
      ensures PublicStep(peerlist.View(), config, st, publicIp, r)
    {
      hide PeerList.View, PeerList.Inv, RatioReaches, ExceedsHalf;
      if prevOK {
        ThresholdsMultipliedOut(publicLatency, prevLatency, config);
      }
      if st.best == Some(publicIp) {
        r := Settle(st.best);
      } else if !prevOK {
        r := Settle(Some(publicIp));
      } else if prevLatency > publicLatency {
        r := Settle(Some(publicIp));
      } else if Recommended(st.underdog, config.averageSize, publicIp) {
        r := Settle(Some(publicIp));
      } else if RatioReaches(publicLatency, prevLatency, config.ratio / 2.0)
           && publicLatency - prevLatency >= config.diff / 2.0 {
        r := st.(underdog := Update(st.underdog, publicIp));
      } else {
        r := Settle(Some(publicIp));
      }
    }
  }

  class SpeedRouteSelector {
    const reader: Reader
    var bestRoute: Option<Prefix>

    constructor (peerlist: PeerList, cfg: Config)
      ensures reader.peerlist == peerlist && reader.config == cfg && bestRoute == None
    {
      reader := new Reader(peerlist, cfg);
      bestRoute := None;
    }

    // `newIp` is the momentary best that the call came upon.
    method BestPath() returns (route: SelectedRoute, ghost newIp: Option<Prefix>)
      requires reader.peerlist.Inv() && this !in reader.peerlist.Repr
      modifies this
      ensures reader.peerlist.Inv() && reader.peerlist.View() == old(reader.peerlist.View())
      ensures var ps := reader.peerlist.View();
              if ps == map[] then bestRoute == None && route == DELETED
              else && newIp.Some? && IsMomentaryBest(ps, newIp.value)
                   && bestRoute == Some(SpeedNext(ps, reader.config, old(bestRoute), newIp.value))
                   && bestRoute.value in ps
                   && route == Selected(ps, reader.config, bestRoute, SpeedReason(ps, reader.config, old(bestRoute), newIp.value))
    {
      hide PeerList.Inv, PeerList.View, SpeedNext, SpeedReason, Selected, IsMomentaryBest;
      var best, order := reader.peerlist.BestRoute();
      newIp := best;
      if best.None? {
        bestRoute := None;
        return DELETED, newIp;
      }
      var r, why := reader.CompareSpeed(bestRoute, best.value);
      route := reader.Announce(Some(r), why);
      bestRoute := Some(r);
    }
  }

  class DirectRouteSelector {
    const reader: Reader
    var bestRoute: Option<Prefix>
    var underdog: Candidate
    var reason: Reason

    constructor (peerlist: PeerList, cfg: Config)
      ensures reader.peerlist == peerlist && reader.config == cfg && State() == DrState(None, Candidate(None, 0))
      ensures reason == Reason(NoChange, 0.0, 0.0)
    {
      reader := new Reader(peerlist, cfg);
      bestRoute, underdog, reason := None, Candidate(None, 0), Reason(NoChange, 0.0, 0.0);
    }

    function State(): DrState
      reads this
    {
      DrState(bestRoute, underdog)
    }

    // `newIp` and `publicIp` are the momentary best and the public route that the call came upon.
    method BestPath() returns (route: SelectedRoute, ghost newIp: Option<Prefix>, ghost publicIp: Option<Prefix>)
      requires reader.peerlist.Inv() && this !in reader.peerlist.Repr
      modifies this
      ensures reader.peerlist.Inv() && reader.peerlist.View() == old(reader.peerlist.View())
      ensures route.reason == reason
      ensures var ps := reader.peerlist.View();
              if ps == map[] then State() == old(State()).(best := None) && route == DELETED
              else && newIp.Some? && IsMomentaryBest(ps, newIp.value) && IsPublicRoute(ps, publicIp)
                   && State() == DrNext(ps, reader.config, old(State()), newIp.value, publicIp)
                   && route == Selected(ps, reader.config, bestRoute,
                                        DrReason(ps, reader.config, old(State()), newIp.value, publicIp, old(reason)))
    {
      hide PeerList.Inv, PeerList.View, DrNext, DrReason, Selected;
      var best, order := reader.peerlist.BestRoute();
      newIp, publicIp := best, None;
      if best.None? {
        bestRoute, reason := None, DELETED.reason;
        return DELETED, newIp, publicIp;
      }
      var pub := reader.peerlist.PublicRoute();
      publicIp := pub;
      var next, why := reader.CompareDirect(State(), best.value, pub, reason);
      route := reader.Announce(next.best, why);
      bestRoute, underdog, reason := next.best, next.underdog, route.reason;
    }
  }
}
