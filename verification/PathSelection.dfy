/**
 Choosing the path of a connection group, as functions of the peers' statistics:
 the momentary best route (peerlist/best.go), and the two selectors that decide
 whether to follow it (routeselector/speed/speed.go, routeselector/dr/dr.go).
 */
module PathSelection {
  import opened Net
  import opened SelectedRoutes

  // What a selector sees of one peer. `incomplete`: some sample of the window has no reply.
  datatype Stats = Stats(valid: bool, loss: real, latency: real, incomplete: bool, public: bool, connectionID: int)

  type Peers = map<Prefix, Stats>

  datatype Config = Config(averageSize: nat, ratio: real, diff: real, deleteLoss: real)

  // Facts about the averages that hold for every peer (see PeerStats.PeerInfo.Val).
  ghost predicate WellMeasured(ps: Peers) {
    forall p :: p in ps ==> ps[p].latency >= 0.0 && (!ps[p].incomplete ==> ps[p].latency > 0.0)
  }

  // ---- The momentary best route ----------------------------------------------------

  // The loop body of BestRoute.
  function Better(ps: Peers, best: Option<Prefix>, ip: Prefix): Prefix
    requires ip in ps && (best.Some? ==> best.value in ps)
  {
    if best.None? then ip
    else if !ps[ip].valid then best.value
    else if ps[ip].loss > ps[best.value].loss then best.value
    else if ps[ip].loss < ps[best.value].loss then ip
    else if ps[ip].latency > 0.0 && ps[ip].latency < ps[best.value].latency then ip
    else best.value
  }

  // The loop, for one order of visiting the map.
  function BestOf(order: seq<Prefix>, ps: Peers): (r: Option<Prefix>)
    requires forall i :: 0 <= i < |order| ==> order[i] in ps
    ensures r.None? <==> order == []
    ensures r.Some? ==> r.value in order
  {
    if order == [] then None
    else Some(Better(ps, BestOf(order[..|order| - 1], ps), order[|order| - 1]))
  }

  ghost predicate Enumerates(order: seq<Prefix>, keys: set<Prefix>) {
    && (forall p :: p in order <==> p in keys)
    && (forall i, j :: 0 <= i < j < |order| ==> order[i] != order[j])
  }

  // No valid peer is better: less loss, or the same loss and a measured, lower latency.
  ghost predicate Unbeaten(ps: Peers, b: Prefix, others: set<Prefix>)
    requires b in ps && others <= ps.Keys
  {
    forall q :: q in others && ps[q].valid ==>
      || ps[b].loss < ps[q].loss
      || (ps[b].loss == ps[q].loss && (ps[b].latency <= ps[q].latency || ps[q].latency == 0.0))
  }

  ghost predicate IsMomentaryBest(ps: Peers, b: Prefix) {
    b in ps && Unbeaten(ps, b, ps.Keys)
  }

  lemma {:induction false} BestOfUnbeaten(order: seq<Prefix>, ps: Peers)
    requires WellMeasured(ps) && order != [] && forall i :: 0 <= i < |order| ==> order[i] in ps
    ensures Unbeaten(ps, BestOf(order, ps).value, set p | p in order)
  {
    var h, ip := order[..|order| - 1], order[|order| - 1];
    assert order == h + [ip];
    if h != [] {
      BestOfUnbeaten(h, ps);
    }
  }

  // The loop of BestRoute has visited all but `todo` in some order, and found `best`.
  ghost predicate Visited(order: seq<Prefix>, todo: set<Prefix>, ps: Peers, best: Option<Prefix>) {
    && Enumerates(order, ps.Keys - todo)
    && (forall i :: 0 <= i < |order| ==> order[i] in ps)
    && best == BestOf(order, ps) && (best.Some? ==> best.value in ps)
  }

  lemma VisitNone(ps: Peers)
    ensures Visited([], ps.Keys, ps, None)
  {
  }

  lemma VisitNext(order: seq<Prefix>, todo: set<Prefix>, ps: Peers, best: Option<Prefix>, ip: Prefix)
    requires Visited(order, todo, ps, best) && ip in ps && ip in todo
    ensures best.Some? ==> best.value in ps
    ensures Visited(order + [ip], todo - {ip}, ps, Some(Better(ps, best, ip)))
  {
    assert (order + [ip])[..|order|] == order;
    assert ps.Keys - (todo - {ip}) == ps.Keys - todo + {ip};
  }

  lemma {:induction false} UnbeatenStays(b: Prefix, rest: seq<Prefix>, ps: Peers)
    requires IsMomentaryBest(ps, b) && forall i :: 0 <= i < |rest| ==> rest[i] in ps
    ensures BestOf([b] + rest, ps) == Some(b)
  {
    if rest == [] {
      assert [b] + rest == [b];
    } else {
      var h, ip := rest[..|rest| - 1], rest[|rest| - 1];
      UnbeatenStays(b, h, ps);
      assert ([b] + rest)[..|rest|] == [b] + h;
    }
  }

  lemma {:induction false} Enumeration(keys: set<Prefix>) returns (order: seq<Prefix>)
    ensures Enumerates(order, keys)
  {
    order := [];
    if keys != {} {
      var p :| p in keys;
      order := Enumeration(keys - {p});
      order := order + [p];
    }
  }

  /** The routes that BestRoute can return, over all orders in which the map may be visited, are exactly
      the peers that no valid peer beats. */
  lemma BestRouteExact(ps: Peers, b: Prefix)
    requires WellMeasured(ps)
    ensures IsMomentaryBest(ps, b) <==> exists order :: Visited(order, {}, ps, Some(b))
  {
    if IsMomentaryBest(ps, b) {
      var rest := Enumeration(ps.Keys - {b});
      assert forall i :: 0 <= i < |rest| ==> rest[i] in rest;
      UnbeatenStays(b, rest, ps);
      var order := [b] + rest;
      assert ps.Keys - {} == ps.Keys;
      assert Visited(order, {}, ps, Some(b));
    }
    if order :| Visited(order, {}, ps, Some(b)) {
      BestOfUnbeaten(order, ps);
      assert (set p | p in order) == ps.Keys;
    }
  }

  /** Whatever the order, the result is one of them. */
  lemma BestRouteSound(order: seq<Prefix>, ps: Peers, best: Option<Prefix>)
    requires WellMeasured(ps) && Visited(order, {}, ps, best)
    ensures best.None? <==> ps == map[]
    ensures best.Some? ==> IsMomentaryBest(ps, best.value)
  {
    assert ps.Keys - {} == ps.Keys;
    if order != [] {
      assert order[0] in ps;
      BestRouteExact(ps, best.value);
    } else {
      assert ps.Keys == {};
    }
  }

  /** With every peer measured the order does not matter: any two results have equal loss and latency. */
  lemma OrderIrrelevant(ps: Peers, order: seq<Prefix>, a: Option<Prefix>, order': seq<Prefix>, b: Option<Prefix>)
    requires forall p :: p in ps ==> ps[p].valid && ps[p].latency > 0.0
    requires ps != map[] && Visited(order, {}, ps, a) && Visited(order', {}, ps, b)
    ensures a.Some? && b.Some?
    ensures ps[a.value].loss == ps[b.value].loss && ps[a.value].latency == ps[b.value].latency
  {
    BestRouteSound(order, ps, a);
    BestRouteSound(order', ps, b);
  }

  // ---- The speed selector -------------------------------------------------------------

  // Division by the (positive) new latency is multiplied out.
  predicate Exceeds(old': real, new': real, ratio: real, diff: real) {
    old' >= ratio * new' && old' - new' >= diff
  }

  // Whatever the statistics, a current peer.
  function SpeedNext(ps: Peers, cfg: Config, cur: Option<Prefix>, new': Prefix): (r: Prefix)
    requires new' in ps
    ensures r in ps
  {
    if cur.None? || cur.value !in ps then new'
    else if ps[new'].loss < ps[cur.value].loss then new'
    else if ps[new'].incomplete then cur.value
    else if Exceeds(ps[cur.value].latency, ps[new'].latency, cfg.ratio, cfg.diff) then new'
    else cur.value
  }

  function SpeedReason(ps: Peers, cfg: Config, cur: Option<Prefix>, new': Prefix): Reason
    requires new' in ps
  {
    if cur.None? || cur.value !in ps then Reason(NewRoute, 0.0, 0.0)
    else if ps[new'].loss < ps[cur.value].loss then Reason(LowerLoss, ps[cur.value].loss, ps[new'].loss)
    else if ps[new'].incomplete then Reason(NoChange, 0.0, 0.0)
    else if Exceeds(ps[cur.value].latency, ps[new'].latency, cfg.ratio, cfg.diff) then
      Reason(LowerLatency, ps[cur.value].latency, ps[new'].latency)
    else Reason(NoChange, 0.0, 0.0)
  }

  // What BestPath answers for the held route: its address and connection, or the order to delete
  // the route, when the loss reaches the (enabled) threshold.
  function Selected(ps: Peers, cfg: Config, best: Option<Prefix>, reason: Reason): SelectedRoute {
    if best.None? || best.value !in ps then SelectedRoute(None, 0, reason)
    else if cfg.deleteLoss > 0.0 && ps[best.value].loss * 100.0 >= cfg.deleteLoss then DELETED
    else SelectedRoute(Some(best.value.addr), ps[best.value].connectionID, reason)
  }

  ghost predicate MinLoss(ps: Peers, r: Prefix) {
    r in ps && forall q :: q in ps ==> ps[r].loss <= ps[q].loss
  }

  ghost predicate AllValid(ps: Peers) {
    WellMeasured(ps) && forall p :: p in ps ==> ps[p].valid && ps[p].loss >= 0.0
  }

  /** Lower loss is a must: after a selection the held route is a current peer with minimal loss. */
  lemma SpeedMinLoss(ps: Peers, cfg: Config, cur: Option<Prefix>, new': Prefix)
    requires AllValid(ps) && IsMomentaryBest(ps, new')
    ensures MinLoss(ps, SpeedNext(ps, cfg, cur, new'))
  {
  }

  /** A switch away from a valid route strictly lowers the loss, or keeps it and meets both thresholds. */
  lemma SpeedSwitchPays(ps: Peers, cfg: Config, cur: Prefix, new': Prefix)
    requires IsMomentaryBest(ps, new') && cur in ps && ps[cur].valid && SpeedNext(ps, cfg, Some(cur), new') != cur
    ensures || ps[new'].loss < ps[cur].loss
            || (ps[new'].loss == ps[cur].loss && !ps[new'].incomplete
                && Exceeds(ps[cur].latency, ps[new'].latency, cfg.ratio, cfg.diff))
  {
  }

  /** The reason names what happened to the held route, the loss or latency of both routes included. Only
      ineffective thresholds make it announce a change although the best route is the one already held. */
  lemma SpeedReasonTruthful(ps: Peers, cfg: Config, cur: Option<Prefix>, new': Prefix)
    requires WellMeasured(ps) && new' in ps
    ensures var r := SpeedNext(ps, cfg, cur, new'); var why := SpeedReason(ps, cfg, cur, new');
            && (why.kind == NewRoute <==> cur.None? || cur.value !in ps)
            && (why.kind == LowerLoss ==> why.before == ps[cur.value].loss > ps[r].loss == why.now)
            && (why.kind == LowerLatency ==> why.before == ps[cur.value].latency && why.now == ps[r].latency)
            && ((why.kind == NoChange <==> cur == Some(r)) <==>
                !(cur == Some(new') && !ps[new'].incomplete && cfg.ratio <= 1.0 && cfg.diff <= 0.0))
  {
    if cur == Some(new') && !ps[new'].incomplete {
      var t := ps[new'].latency;
      if cfg.ratio <= 1.0 {
        assert cfg.ratio * t <= 1.0 * t;
      } else {
        assert cfg.ratio * t > 1.0 * t;
      }
    }
  }

  /** And it does switch whenever either is the case. */
  lemma SpeedSwitchesExactly(ps: Peers, cfg: Config, cur: Prefix, new': Prefix)
    requires AllValid(ps) && IsMomentaryBest(ps, new') && cur in ps && cur != new'
    ensures SpeedNext(ps, cfg, Some(cur), new') == new' <==>
            || ps[new'].loss < ps[cur].loss
            || (!ps[new'].incomplete && ps[cur].latency >= cfg.ratio * ps[new'].latency
                && ps[cur].latency - ps[new'].latency >= cfg.diff)
  {
  }

  // ---- The answer --------------------------------------------------------------------------

  /** A held peer is answered unless the threshold is enabled and its loss reaches that many percent; what is answered is
      the address and the connection of that peer. */
  lemma SelectedExactly(ps: Peers, cfg: Config, best: Prefix, reason: Reason)
    requires best in ps
    ensures var r := Selected(ps, cfg, Some(best), reason);
            && (r.ip.Some? <==> cfg.deleteLoss <= 0.0 || ps[best].loss < cfg.deleteLoss / 100.0)
            && (r.ip.Some? ==> r == SelectedRoute(Some(best.addr), ps[best].connectionID, reason))
            && (r.ip.None? ==> r.id == 0 && r.reason.kind == RouteDelete)
  {
  }

  /** What is no peer any more is not answered, and nothing is made of the reason. */
  lemma SelectedNone(ps: Peers, cfg: Config, best: Option<Prefix>, reason: Reason)
    requires best.None? || best.value !in ps
    ensures Selected(ps, cfg, best, reason) == SelectedRoute(None, 0, reason)
  {
  }

  ghost predicate FullyMeasured(ps: Peers) {
    AllValid(ps) && forall p :: p in ps ==> !ps[p].incomplete
  }

  // The held route after calls of BestPath whose momentary bests were `news`.
  function SpeedRun(ps: Peers, cfg: Config, cur: Option<Prefix>, news: seq<Prefix>): (r: Option<Prefix>)
    requires forall i :: 0 <= i < |news| ==> news[i] in ps
    decreases |news|
  {
    if news == [] then cur
    else Some(SpeedNext(ps, cfg, SpeedRun(ps, cfg, cur, news[..|news| - 1]), news[|news| - 1]))
  }

  lemma SpeedSecondCall(ps: Peers, cfg: Config, cur: Option<Prefix>, a: Prefix, b: Prefix)
    requires FullyMeasured(ps) && IsMomentaryBest(ps, a) && IsMomentaryBest(ps, b)
    requires cfg.ratio > 1.0 || cfg.diff > 0.0
    ensures SpeedNext(ps, cfg, Some(SpeedNext(ps, cfg, cur, a)), b) == SpeedNext(ps, cfg, cur, a)
  {
    assert ps[a].loss == ps[b].loss && ps[a].latency == ps[b].latency;
    var t := ps[a].latency;
    assert !Exceeds(t, t, cfg.ratio, cfg.diff) by {
      if cfg.ratio > 1.0 {
        assert cfg.ratio * t > 1.0 * t;
      }
    }
    hide Exceeds;
  }

  /** Constant statistics change the held route at most once: from the first call on it stays, whichever
      of several equally good bests each later call comes up with. */
  lemma {:induction false} SpeedStays(ps: Peers, cfg: Config, cur: Option<Prefix>, news: seq<Prefix>)
    requires FullyMeasured(ps) && news != [] && forall i :: 0 <= i < |news| ==> news[i] in ps && IsMomentaryBest(ps, news[i])
    requires cfg.ratio > 1.0 || cfg.diff > 0.0
    ensures SpeedRun(ps, cfg, cur, news) == SpeedRun(ps, cfg, cur, news[..1])
  {
    if |news| > 1 {
      var h := news[..|news| - 1];
      SpeedStays(ps, cfg, cur, h);
      assert h[..1] == news[..1];
      assert news[..1][..0] == [];
      SpeedSecondCall(ps, cfg, cur, news[0], news[|news| - 1]);
    } else {
      assert news == news[..1];
    }
  }

  // With momentary bests `a` and then `b`, the second call changes the route again.
  ghost predicate Flaps(ps: Peers, cfg: Config, cur: Option<Prefix>, a: Prefix, b: Prefix) {
    && IsMomentaryBest(ps, a) && IsMomentaryBest(ps, b)
    && SpeedNext(ps, cfg, Some(SpeedNext(ps, cfg, cur, a)), b) != SpeedNext(ps, cfg, cur, a)
  }

  ghost predicate SpeedCanFlap(ps: Peers, cfg: Config) {
    exists cur: Option<Prefix>, a, b :: Flaps(ps, cfg, cur, a, b)
  }

  /** The thresholds are what prevents flapping: without them, and only then, two equally good routes
      replace each other. */
  lemma SpeedFlapsExactly(ps: Peers, cfg: Config)
    requires FullyMeasured(ps)
    ensures SpeedCanFlap(ps, cfg) <==>
            && cfg.ratio <= 1.0 && cfg.diff <= 0.0
            && exists a, b :: a != b && IsMomentaryBest(ps, a) && IsMomentaryBest(ps, b)
  {
    if cfg.ratio <= 1.0 && cfg.diff <= 0.0 {
      if a, b :| a != b && IsMomentaryBest(ps, a) && IsMomentaryBest(ps, b) {
        LooseExceeds(ps[a].latency, ps[b].latency, cfg);
        assert Flaps(ps, cfg, None, a, b);
      }
      if SpeedCanFlap(ps, cfg) {
        var cur: Option<Prefix>, a, b :| Flaps(ps, cfg, cur, a, b);
        assert a != b;
      }
    } else {
      forall cur: Option<Prefix>, a, b | IsMomentaryBest(ps, a) && IsMomentaryBest(ps, b)
        ensures !Flaps(ps, cfg, cur, a, b)
      {
        SpeedSecondCall(ps, cfg, cur, a, b);
      }
    }
  }

  lemma LooseExceeds(s: real, t: real, cfg: Config)
    requires cfg.ratio <= 1.0 && cfg.diff <= 0.0 && s >= t > 0.0
    ensures Exceeds(s, t, cfg.ratio, cfg.diff)
  {
    assert cfg.ratio * t <= 1.0 * t;
  }

  /** Two peers with the same statistics are enough for both: with ineffective thresholds they replace each other, and
      the one that is held is announced as a change to itself. */
  lemma ThresholdsMatter(a: Prefix, b: Prefix, loss: real, latency: real) returns (ps: Peers, cfg: Config)
    requires a != b && loss >= 0.0 && latency > 0.0
    ensures FullyMeasured(ps) && SpeedCanFlap(ps, cfg)
    ensures a in ps && SpeedNext(ps, cfg, Some(a), a) == a && SpeedReason(ps, cfg, Some(a), a).kind == LowerLatency
  {
    ps := map[a := Stats(true, loss, latency, false, false, 1), b := Stats(true, loss, latency, false, false, 2)];
    cfg := Config(1, 1.0, 0.0, 0.0);
    assert IsMomentaryBest(ps, a) && IsMomentaryBest(ps, b);
    SpeedFlapsExactly(ps, cfg);
  }
}
