/**
 Ping statistics of hosts (pkg/multiping/pingdata): what Send and Recv count, and how
 Append merges the statistics of one round into those of the rounds before.
 */
module PingData {
  import opened Net

  // Go divides integers towards zero.
  function Div(a: int, b: int): int
    requires b > 0
  {
    if a >= 0 then a / b else -(-a / b)
  }

  datatype Stats = Stats(sequence: nat, tx: nat, rx: nat, dup: nat, rtt: int, avgRtt: int) {
    predicate Valid() {
      tx > 0 && tx >= rx
    }

    // Sequence number 0 says that no reply is outstanding.
    function Outstanding(): nat {
      if sequence != 0 then 1 else 0
    }

    // No more replies than requests, counting the one that may still arrive.
    ghost predicate Sound() {
      rx + Outstanding() <= tx
    }

    function Loss(): (loss: real)
      ensures 0.0 <= loss <= 1.0
    {
      if Valid() then Ratio(tx - rx, tx) else 0.0
    }

    // In milliseconds.
    function Latency(): real {
      if Valid() && rx > 0 then avgRtt as real / MILLISECOND else 0.0
    }
  }

  const MILLISECOND := 1000000.0  // in nanoseconds

  const CLEARED := Stats(0, 0, 0, 0, 0, 0)

  // Latency is the average in milliseconds.
  lemma LatencySum(s: Stats)
    requires s.Valid() && s.rx > 0
    ensures s.Latency() * MILLISECOND * s.rx as real == Weight(s) as real
  {
    assert s.Latency() * MILLISECOND == s.avgRtt as real;
  }

  lemma LossSum(s: Stats)
    requires s.Valid()
    ensures s.Loss() * s.tx as real == (s.tx - s.rx) as real
  {
  }

  function Ratio(a: nat, b: nat): (r: real)
    requires a <= b && b > 0
    ensures 0.0 <= r <= 1.0
    ensures r * b as real == a as real
  {
    a as real / b as real
  }

  // ---- One host ----------------------------------------------------------------------

  function Sent(s: Stats, number: nat): Stats {
    s.(tx := s.tx + 1, rtt := 0, sequence := number)
  }

  function Received(s: Stats, number: nat, rtt: int): Stats {
    if s.sequence != number then s.(dup := s.dup + 1)
    else
      var avg := if s.avgRtt == 0 then rtt else Div((s.rx + 1) * s.avgRtt + rtt, s.rx + 2);
      s.(rx := s.rx + 1, rtt := rtt, avgRtt := avg, sequence := 0)
  }

  datatype Event = Send(number: nat) | Recv(number: nat, rtt: int) | Reset

  function Run(s: Stats, events: seq<Event>): Stats {
    if events == [] then s
    else
      var before := Run(s, events[..|events| - 1]);
      match events[|events| - 1]
      case Send(number) => Sent(before, number)
      case Recv(number, rtt) => Received(before, number, rtt)
      case Reset => CLEARED
  }

  // Requests and replies since the last Reset.
  function Requests(events: seq<Event>): nat {
    if events == [] || events[|events| - 1] == Reset then 0
    else Requests(events[..|events| - 1]) + if events[|events| - 1].Send? then 1 else 0
  }

  function Replies(events: seq<Event>): nat {
    if events == [] || events[|events| - 1] == Reset then 0
    else Replies(events[..|events| - 1]) + if events[|events| - 1].Recv? then 1 else 0
  }

  predicate NonZero(events: seq<Event>) {
    forall e :: e in events && !e.Reset? ==> e.number != 0
  }

  /** The pinger never uses sequence number 0. Then whatever arrives, and in whatever order, no reply is
      counted twice and none is lost: the statistics are valid as soon as something was sent. */
  lemma {:induction false} RunSound(events: seq<Event>)
    requires NonZero(events)
    ensures var s := Run(CLEARED, events);
            && s.Sound() && s.tx == Requests(events) && s.rx + s.dup == Replies(events)
            && (s.Valid() <==> Requests(events) > 0)
  {
    if events != [] {
      var e := events[|events| - 1];
      assert e in events;
      RunSound(events[..|events| - 1]);
    }
  }

  // Every request is answered before the next one.
  function Exchange(times: seq<int>, number: nat): seq<Event> {
    if times == [] then []
    else Exchange(times[..|times| - 1], number) + [Send(number + |times|)] + [Recv(number + |times|, times[|times| - 1])]
  }

  lemma Answered(s: Stats, number: nat, rtt: int)
    ensures var r := Received(Sent(s, number), number, rtt);
            r.tx == s.tx + 1 && r.rx == s.rx + 1 && r.dup == s.dup && r.rtt == rtt && r.sequence == 0
  {
  }

  /** Then nothing is lost and nothing counted twice, and the last time is that of the last reply. */
  lemma {:induction false} NothingLost(times: seq<int>, number: nat)
    ensures var s := Run(CLEARED, Exchange(times, number));
            && s.tx == s.rx == |times| && s.dup == 0 && s.sequence == 0 && s.Loss() == 0.0
            && s.rtt == if times == [] then 0 else times[|times| - 1]
  {
    if times != [] {
      hide Received, Run;
      var front, n, t := Exchange(times[..|times| - 1], number), number + |times|, times[|times| - 1];
      NothingLost(times[..|times| - 1], number);
      RunNext(CLEARED, front, Send(n));
      RunNext(CLEARED, front + [Send(n)], Recv(n, t));
      Answered(Run(CLEARED, front), n, t);
      NoLoss(Run(CLEARED, front + [Send(n)] + [Recv(n, t)]));
    }
  }

  lemma RunNext(s: Stats, events: seq<Event>, e: Event)
    ensures e.Send? ==> Run(s, events + [e]) == Sent(Run(s, events), e.number)
    ensures e.Recv? ==> Run(s, events + [e]) == Received(Run(s, events), e.number, e.rtt)
  {
    assert (events + [e])[..|events|] == events;
  }

  lemma NoLoss(s: Stats)
    requires s.tx == s.rx
    ensures s.Loss() == 0.0
  {
    if s.tx > 0 {
      LossSum(s);
    }
  }

  /** What a reply does to soundness: only one that carries number 0, when none is outstanding, is counted without a
      request to answer. */
  lemma ReceivedSound(s: Stats, number: nat, rtt: int)
    requires s.Sound()
    ensures Received(s, number, rtt).Sound() <==> !(number == 0 && s.sequence == 0 && s.rx == s.tx)
  {
  }

  /** Recv weighs the new reply too little for an arithmetic mean: of 100 and 200 it makes 133. */
  lemma RecvNotMean()
    ensures var s := Run(CLEARED, [Send(1), Recv(1, 100), Send(2), Recv(2, 200)]); s.rx == 2 && s.avgRtt == 133
  {
    var events := [Send(1), Recv(1, 100), Send(2), Recv(2, 200)];
    assert events[..3][..2] == [Send(1), Recv(1, 100)] && events[..3][..2][..1] == [Send(1)];
    assert Run(CLEARED, events[..3][..2][..1][..0]) == CLEARED;
    assert Run(CLEARED, events[..3][..2]).avgRtt == 100;
  }

  /** The new average is the mean, rounded down, of the old one over all replies so far and the new reply iff: the first
      reply that is counted, or one of 0, follows an average of 0; or the weight of the code and that of the mean move the
      old average by the same whole number. */
  lemma RecvMeanExactly(s: Stats, rtt: int)
    requires s.avgRtt >= 0 && rtt >= 0
    ensures Received(s, s.sequence, rtt).avgRtt == Div(s.rx * s.avgRtt + rtt, s.rx + 1) <==>
            if s.avgRtt == 0 then s.rx == 0 || rtt == 0
            else (rtt - s.avgRtt) / (s.rx + 2) == (rtt - s.avgRtt) / (s.rx + 1)
  {
    var r, a, t := s.rx, s.avgRtt, rtt;
    assert r * a >= 0 && (r + 1) * a >= 0;
    if a == 0 {
      if r > 0 && t > 0 {
        DivLess(t, r + 1);
      }
    } else {
      DivShift(r * a + t, r + 1, a, t - a);
      DivShift((r + 1) * a + t, r + 2, a, t - a);
    }
  }

  lemma DivLess(t: nat, n: nat)
    requires t > 0 && n > 1
    ensures t / n < t
  {
    var q := t / n;
    assert t == n * q + t % n;
    if q > 0 {
      Multiple(q, n - 1);
      assert n * q == q * (n - 1) + q;
    }
  }

  lemma Multiple(n: nat, x: nat)
    requires x > 0
    ensures n * x >= n
  {
    assert n * (x - 1) >= 0;
    assert n * x == n * (x - 1) + n;
  }

  lemma DivShift(x: int, n: nat, a: int, d: int)
    requires n > 0 && x == n * a + d
    ensures x / n == a + d / n
  {
    var p, q := x / n, d / n;
    assert d == n * q + d % n && x == n * p + x % n;
    assert n * (a + q) == n * a + n * q;
    QuotientUnique(n, p, x % n, a + q, d % n);
  }

  lemma QuotientUnique(n: nat, p: int, u: nat, q: int, m: nat)
    requires u < n && m < n && n * p + u == n * q + m
    ensures p == q
  {
    if p > q {
      assert n * (p - q) == m - u;
      Multiple(n, p - q);
    } else if p < q {
      assert n * (q - p) == u - m;
      Multiple(n, q - p);
    }
  }

  // The replies' times lie between `lo` and `hi`.
  predicate Within(events: seq<Event>, lo: int, hi: int) {
    forall e :: e in events && e.Recv? ==> lo <= e.rtt <= hi
  }

  // So does an average of them, if there are any.
  predicate Between(s: Stats, lo: int, hi: int) {
    if s.rx > 0 then lo <= s.avgRtt <= hi else s.avgRtt == 0
  }

  /** Recv weighs the new reply less than an arithmetic mean would, yet its average stays within the replies' range. */
  lemma {:induction false} RunBetween(events: seq<Event>, lo: int, hi: int)
    requires Within(events, lo, hi) && 0 <= lo <= hi
    ensures Between(Run(CLEARED, events), lo, hi)
  {
    if events != [] {
      var e := events[|events| - 1];
      assert e in events;
      RunBetween(events[..|events| - 1], lo, hi);
      if e.Recv? {
        ReceivedBetween(Run(CLEARED, events[..|events| - 1]), e.number, e.rtt, lo, hi);
      }
    }
  }

  lemma ReceivedBetween(s: Stats, number: nat, rtt: int, lo: int, hi: int)
    requires Between(s, lo, hi) && 0 <= lo <= rtt <= hi
    ensures Between(Received(s, number, rtt), lo, hi)
  {
    if s.sequence == number && s.avgRtt != 0 {
      MulBetween(s.rx + 1, s.avgRtt, lo, hi);
      MulPlus(s.rx + 1, lo, hi);
      DivBetween((s.rx + 1) * s.avgRtt + rtt, s.rx + 2, lo, hi);
    }
  }

  lemma MulPlus(n: nat, lo: int, hi: int)
    requires 0 <= lo
    ensures (n + 1) * lo == n * lo + lo && (n + 1) * hi == n * hi + hi && 0 <= n * lo
  {
  }

  lemma MulBetween(n: nat, x: int, lo: int, hi: int)
    requires lo <= x <= hi
    ensures n * lo <= n * x <= n * hi
  {
  }

  lemma DivBetween(w: int, n: nat, lo: int, hi: int)
    requires n > 0 && 0 <= n * lo <= w <= n * hi
    ensures lo <= Div(w, n) <= hi
  {
    assert w == w / n * n + w % n;
    if w / n < lo {
      MulBetween(n, w / n + 1, w / n + 1, lo);
    }
    if w / n > hi {
      MulBetween(n, hi + 1, hi + 1, w / n);
    }
  }

  class PingStats {
    var sequence: nat
    var tx: nat
    var rx: nat
    var dup: nat
    var rtt: int
    var avgRtt: int

    constructor ()
      ensures Value() == CLEARED
    {
      sequence, tx, rx, dup, rtt, avgRtt := 0, 0, 0, 0, 0, 0;
    }

    function Value(): Stats
      reads this
    {
      Stats(sequence, tx, rx, dup, rtt, avgRtt)
    }

    method Reset()
      modifies this
      ensures Value() == CLEARED
    {
      tx, rx, dup, sequence, rtt, avgRtt := 0, 0, 0, 0, 0, 0;
    }

    method Send(number: nat)
      modifies this
      ensures Value() == Sent(old(Value()), number)
    {
      tx := tx + 1;
      rtt := 0;
      sequence := number;
    }

    method Recv(number: nat, rtt: int)
      modifies this
      ensures Value() == Received(old(Value()), number, rtt)
    {
      if sequence == number {
        rx := rx + 1;
        this.rtt := rtt;
        if avgRtt == 0 {
          avgRtt := rtt;
        } else {
          avgRtt := Div(rx * avgRtt + this.rtt, rx + 1);
        }
        sequence := 0;
      } else {
        dup := dup + 1;
      }
    }
  }

  // ---- Merging -------------------------------------------------------------------------

  function MergedAvg(a: Stats, b: Stats): int {
    if a.rx + b.rx > 0 then Div(a.avgRtt * a.rx + b.avgRtt * b.rx, a.rx + b.rx) else a.avgRtt
  }

  function Merged(a: Stats, b: Stats): Stats {
    a.(avgRtt := MergedAvg(a, b), rtt := b.rtt, tx := a.tx + b.tx, rx := a.rx + b.rx)
  }

  lemma MergedSound(a: Stats, b: Stats)
    requires a.Sound() && b.Sound()
    ensures Merged(a, b).Sound()
  {
  }

  lemma MergedBetween(a: Stats, b: Stats, lo: int, hi: int)
    requires Between(a, lo, hi) && Between(b, lo, hi) && 0 <= lo <= hi
    ensures Between(Merged(a, b), lo, hi)
  {
    if a.rx + b.rx > 0 {
      WeightBetween(a, lo, hi);
      WeightBetween(b, lo, hi);
      MulSum(a.rx, b.rx, lo, hi);
      DivBetween(Weight(a) + Weight(b), a.rx + b.rx, lo, hi);
    }
  }

  lemma WeightBetween(s: Stats, lo: int, hi: int)
    requires Between(s, lo, hi) && 0 <= lo <= hi
    ensures s.rx * lo <= Weight(s) <= s.rx * hi
  {
    if s.rx > 0 {
      MulBetween(s.rx, s.avgRtt, lo, hi);
    }
  }

  lemma MulSum(n: nat, m: nat, lo: int, hi: int)
    requires 0 <= lo
    ensures n * lo + m * lo == (n + m) * lo && n * hi + m * hi == (n + m) * hi && 0 <= (n + m) * lo
  {
  }

  // The sum of the replies' times that the average stands for.
  function Weight(s: Stats): int {
    s.avgRtt * s.rx
  }

  /** One merge rounds down by less than one unit for each reply. */
  lemma MergedWeight(a: Stats, b: Stats)
    requires a.avgRtt >= 0 && b.avgRtt >= 0
    ensures var s := Merged(a, b);
            && s.avgRtt >= 0
            && Weight(s) <= Weight(a) + Weight(b)
            && (s.rx > 0 ==> Weight(a) + Weight(b) <= Weight(s) + s.rx - 1)
            && (s.rx == 0 ==> Weight(a) + Weight(b) == 0)
  {
    var r := a.rx + b.rx;
    assert Weight(a) >= 0 && Weight(b) >= 0;
    if r > 0 {
      var w := Weight(a) + Weight(b);
      assert w == w / r * r + w % r;
    }
  }

  function MergedAll(rounds: seq<Stats>): Stats
    requires rounds != []
  {
    if |rounds| == 1 then rounds[0] else Merged(MergedAll(rounds[..|rounds| - 1]), rounds[|rounds| - 1])
  }

  function TotalTx(rounds: seq<Stats>): nat {
    if rounds == [] then 0 else TotalTx(rounds[..|rounds| - 1]) + rounds[|rounds| - 1].tx
  }

  function TotalRx(rounds: seq<Stats>): nat {
    if rounds == [] then 0 else TotalRx(rounds[..|rounds| - 1]) + rounds[|rounds| - 1].rx
  }

  function TotalWeight(rounds: seq<Stats>): int {
    if rounds == [] then 0 else TotalWeight(rounds[..|rounds| - 1]) + Weight(rounds[|rounds| - 1])
  }

  // Counters are the exact sums. The average never exceeds the true weighted mean, and is below it by less than one
  // unit for each merge.
  ghost predicate Summarises(s: Stats, rounds: seq<Stats>) {
    && s.avgRtt >= 0
    && s.tx == TotalTx(rounds) && s.rx == TotalRx(rounds)
    && Weight(s) <= TotalWeight(rounds)
    && (s.rx > 0 ==> TotalWeight(rounds) <= Weight(s) + (|rounds| - 1) * (s.rx - 1))
    && (s.rx == 0 ==> TotalWeight(rounds) == 0)
  }

  /** However many rounds are merged, the result summarises them. */
  lemma {:induction false} MergedError(rounds: seq<Stats>)
    requires rounds != [] && forall s :: s in rounds ==> s.avgRtt >= 0
    ensures Summarises(MergedAll(rounds), rounds)
  {
    var last := rounds[|rounds| - 1];
    var front := rounds[..|rounds| - 1];
    assert rounds == front + [last];
    if front == [] {
      SummaryFirst(last);
    } else {
      assert forall s :: s in front ==> s in rounds;
      MergedError(front);
      SummaryMore(MergedAll(front), front, last);
    }
  }

  lemma SummaryFirst(r: Stats)
    requires r.avgRtt >= 0
    ensures Summarises(r, [] + [r])
  {
    Totals([], r);
  }

  lemma SummaryMore(s: Stats, rounds: seq<Stats>, r: Stats)
    requires rounds != [] && Summarises(s, rounds) && r.avgRtt >= 0
    ensures Summarises(Merged(s, r), rounds + [r])
  {
    hide TotalWeight, TotalTx, TotalRx;
    Totals(rounds, r);
    MergedWeight(s, r);
    var n := |rounds|;
    if s.rx > 0 {
      Grows(n - 1, s.rx - 1, s.rx + r.rx - 1);
    } else if r.rx > 0 {
      Grows(n - 1, 0, r.rx - 1);
    }
  }

  // After a reset the first round counts as it is.
  lemma SummaryCleared(r: Stats)
    requires r.avgRtt >= 0
    ensures Summarises(Merged(CLEARED, r), [] + [r])
  {
    Totals([], r);
    if r.rx > 0 {
      WeightBetween(r, r.avgRtt, r.avgRtt);
      DivBetween(Weight(r), r.rx, r.avgRtt, r.avgRtt);
    }
  }

  lemma Totals(rounds: seq<Stats>, r: Stats)
    ensures TotalTx(rounds + [r]) == TotalTx(rounds) + r.tx && TotalRx(rounds + [r]) == TotalRx(rounds) + r.rx
    ensures TotalWeight(rounds + [r]) == TotalWeight(rounds) + Weight(r)
  {
    assert (rounds + [r])[..|rounds|] == rounds;
  }

  lemma Grows(n: nat, x: nat, y: nat)
    requires x <= y
    ensures n * x + y <= (n + 1) * y
    ensures 0 <= n * x
  {
    assert n * x <= n * y;
  }

  /** The last time is that of the last round, and duplicates are those of the first. */
  lemma {:induction false} MergedLast(rounds: seq<Stats>)
    requires rounds != []
    ensures var s := MergedAll(rounds); s.rtt == rounds[|rounds| - 1].rtt && s.dup == rounds[0].dup
  {
    if |rounds| > 1 {
      MergedLast(rounds[..|rounds| - 1]);
    }
  }

  // ---- All hosts -----------------------------------------------------------------------

  type Results = map<Addr, Stats>

  function MergedTables(a: Results, b: Results): Results {
    map ip | ip in a.Keys + b.Keys :: if ip !in b then a[ip] else if ip in a then Merged(a[ip], b[ip]) else b[ip]
  }

  lemma MergeNone(a: Results, b: Results)
    ensures MergedTables(a, b - b.Keys) == a
  {
  }

  lemma MergeOne(a: Results, b: Results, todo: set<Addr>, ip: Addr)
    requires ip in todo && todo <= b.Keys
    ensures var m := MergedTables(a, b - todo);
            && (ip in m <==> ip in a) && (ip in a ==> m[ip] == a[ip])
            && MergedTables(a, b - (todo - {ip})) == m[ip := if ip in a then Merged(a[ip], b[ip]) else b[ip]]
  {
  }

  function Hosts(hosts: seq<Addr>): set<Addr> {
    set ip | ip in hosts
  }

  ghost predicate Distinct(m: map<Addr, PingStats>) {
    forall a, b :: a in m && b in m && a != b ==> m[a] != m[b]
  }

  // The entries Append has built when the hosts in `todo` are still to come.
  function Taken(mine: map<Addr, PingStats>, theirs: map<Addr, PingStats>, todo: set<Addr>): map<Addr, PingStats> {
    (theirs - todo) + mine
  }

  lemma TakenNone(mine: map<Addr, PingStats>, theirs: map<Addr, PingStats>)
    ensures Taken(mine, theirs, theirs.Keys) == mine
  {
  }

  lemma TakenOne(mine: map<Addr, PingStats>, theirs: map<Addr, PingStats>, todo: set<Addr>, ip: Addr)
    requires ip in todo && todo <= theirs.Keys
    requires Distinct(mine) && Distinct(theirs) && mine.Values !! theirs.Values
    ensures var m := Taken(mine, theirs, todo);
            && Distinct(m) && theirs[ip] !in m.Values && (ip in m <==> ip in mine)
            && (ip in m ==> m[ip] == mine[ip] && mine[ip] in mine.Values && m[ip] !in theirs.Values)
            && Taken(mine, theirs, todo - {ip}) == if ip in m then m else m[ip := theirs[ip]]
  {
    Apart(mine, theirs);
    assert forall x :: x in Taken(mine, theirs, todo) && x != ip ==> x in mine || Taken(mine, theirs, todo)[x] == theirs[x];
  }

  lemma TakenAll(mine: map<Addr, PingStats>, theirs: map<Addr, PingStats>)
    requires Distinct(mine) && Distinct(theirs) && mine.Values !! theirs.Values
    ensures Taken(mine, theirs, {}) == theirs + mine && Distinct(theirs + mine)
  {
    Apart(mine, theirs);
  }

  lemma Apart(mine: map<Addr, PingStats>, theirs: map<Addr, PingStats>)
    requires mine.Values !! theirs.Values
    ensures forall x, y :: x in mine && y in theirs ==> mine[x] != theirs[y]
  {
    forall x, y | x in mine && y in theirs ensures mine[x] != theirs[y] {
      assert mine[x] in mine.Values && theirs[y] in theirs.Values;
    }
  }

  class PingData {
    var entries: map<Addr, PingStats>

    constructor ()
      ensures entries == map[]
    {
      entries := map[];
    }

    // Every host has statistics of its own.
    ghost predicate Valid()
      reads this
    {
      Distinct(entries)
    }

    function Contents(): Results
      reads this, entries.Values
    {
      map ip | ip in entries :: entries[ip].Value()
    }

    method Add(hosts: seq<Addr>)
      requires Valid()
      modifies this
      ensures Valid()
      ensures Contents() == old(Contents()) + map ip | ip in Hosts(hosts) :: CLEARED
      ensures forall ip :: ip in entries ==> fresh(entries[ip]) || (ip in old(entries) && entries[ip] == old(entries)[ip])
    {
      for i := 0 to |hosts|
        invariant Valid()
        invariant entries.Keys == old(entries).Keys + Hosts(hosts[..i])
        invariant forall ip :: ip in entries ==>
                    if ip in hosts[..i] then fresh(entries[ip]) && entries[ip].Value() == CLEARED
                    else entries[ip] == old(entries)[ip]
      {
        assert hosts[..i + 1] == hosts[..i] + [hosts[i]];
        var stats := new PingStats();
        entries := entries[hosts[i] := stats];
      }
      assert hosts[..|hosts|] == hosts;
    }

    method Del(hosts: set<Addr>)
      requires Valid()
      modifies this
      ensures Valid() && entries == old(entries) - hosts && Contents() == old(Contents()) - hosts
    {
      var todo := hosts;
      while todo != {}
        invariant todo <= hosts && entries == old(entries) - (hosts - todo)
      {
        var ip := Next(todo);
        entries := entries - {ip};
        todo := todo - {ip};
      }
    }

    // The statistics of a new host are taken over as they are, object and all.
    method Append(data: PingData)
      requires Valid() && data.Valid() && data != this && entries.Values !! data.entries.Values
      modifies this, entries.Values
      ensures Valid()
      ensures Contents() == MergedTables(old(Contents()), old(data.Contents()))
      ensures data.entries == old(data.entries) && data.Contents() == old(data.Contents())
      ensures entries == data.entries + old(entries)
    {
      hide MergedTables, Merged, Taken, Distinct;
      ghost var a, b, mine, theirs := Contents(), data.Contents(), entries, data.entries;
      var todo := data.entries.Keys;
      MergeNone(a, b);
      assert todo == b.Keys;
      TakenNone(mine, theirs);
      while todo != {}
        invariant data.entries == theirs && todo <= theirs.Keys && data.Contents() == b
        invariant entries == Taken(mine, theirs, todo)
        invariant Contents() == MergedTables(a, b - todo)
      {
        var ip := Next(todo);
        MergeOne(a, b, todo, ip);
        TakenOne(mine, theirs, todo, ip);
        AppendOne(ip, data.entries[ip]);
        todo := todo - {ip};
      }
      TakenAll(mine, theirs);
      assert b - {} == b;
    }

    method AppendOne(ip: Addr, stats: PingStats)
      requires Valid() && stats !in entries.Values
      modifies this, if ip in entries then {entries[ip]} else {}
      ensures entries == if ip in old(entries) then old(entries) else old(entries)[ip := stats]
      ensures Contents() == old(Contents())[ip := if ip in old(Contents()) then Merged(old(Contents())[ip], old(stats.Value()))
                                                  else old(stats.Value())]
    {
      hide Merged, Distinct;
      if ip in entries {
        MergeInto(ip, stats);
      } else {
        Take(ip, stats);
      }
    }

    method Take(ip: Addr, stats: PingStats)
      modifies this
      ensures entries == old(entries)[ip := stats]
      ensures Contents() == old(Contents())[ip := stats.Value()]
    {
      entries := entries[ip := stats];
    }

    method MergeInto(ip: Addr, stats: PingStats)
      requires Valid() && ip in entries && stats !in entries.Values
      modifies entries[ip]
      ensures entries == old(entries)
      ensures Contents() == old(Contents())[ip := Merged(old(Contents())[ip], stats.Value())]
    {
      var val := entries[ip];
      if val.rx + stats.rx > 0 {
        val.avgRtt := Div(val.avgRtt * val.rx + stats.avgRtt * stats.rx, val.rx + stats.rx);
      }
      val.rtt := stats.rtt;
      val.tx := val.tx + stats.tx;
      val.rx := val.rx + stats.rx;
    }

    method Reset()
      requires Valid()
      modifies entries.Values
      ensures Contents() == map ip | ip in old(entries) :: CLEARED
    {
      var todo := entries.Keys;
      while todo != {}
        invariant todo <= entries.Keys
        invariant forall ip :: ip in entries && ip !in todo ==> entries[ip].Value() == CLEARED
      {
        var ip := Next(todo);
        entries[ip].Reset();
        todo := todo - {ip};
      }
    }
  }
}
