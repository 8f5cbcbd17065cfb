/**
 The direct-route selector (routeselector/dr/dr.go) as a state machine: it prefers
 the public route, leaves it only for a clearly better one, and lets a contender
 that is only slightly better (the underdog) win when it has persisted.
 */
module DirectRoute {
  import opened Net
  import opened SelectedRoutes
  import opened PathSelection

  datatype Candidate = Candidate(route: Option<Prefix>, count: nat)

  datatype DrState = DrState(best: Option<Prefix>, underdog: Candidate)

  function Update(c: Candidate, ip: Prefix): Candidate {
    if c.route == Some(ip) then c.(count := c.count + 1) else Candidate(Some(ip), 0)
  }

  predicate Recommended(c: Candidate, limit: nat, ip: Prefix) {
    c.route == Some(ip) && c.count >= limit
  }

  // Half the thresholds, multiplied out. Floating-point division by a zero latency gives an infinite
  // ratio, or no number at all when both latencies are zero.
  predicate ExceedsHalf(old': real, new': real, cfg: Config) {
    && (if new' == 0.0 then old' > 0.0 else old' >= cfg.ratio / 2.0 * new')
    && old' - new' >= cfg.diff / 2.0
  }

  function Settle(ip: Option<Prefix>): DrState {
    DrState(ip, Candidate(ip, 0))
  }

  // One calculation, when the momentary best is `new'` and `pub` is the public route found, if any.
  function DrNext(ps: Peers, cfg: Config, st: DrState, new': Prefix, pub: Option<Prefix>): DrState
    requires new' in ps && (pub.Some? ==> pub.value in ps)
  {
    if pub.None? then Settle(Some(new'))
    else if ps[new'].incomplete then
      if st.best.None? && ps[pub.value].loss == 0.0 && ps[pub.value].latency > 0.0 then Settle(pub)
      else Settle(st.best)
    else if pub == Some(new') then
      if st.best == pub then st else Settle(pub)
    else if ps[pub.value].loss + HeldLoss(ps, st) > 0.0 then Settle(Some(LeastLoss(ps, st, new', pub.value)))
    else if Exceeds(ps[pub.value].latency, ps[new'].latency, cfg.ratio, cfg.diff) then TowardsNew(ps, cfg, st, new')
    else TowardsPublic(ps, cfg, st, pub.value)
  }

  predicate Holds(ps: Peers, st: DrState) {
    st.best.Some? && st.best.value in ps
  }

  function HeldLoss(ps: Peers, st: DrState): real {
    if Holds(ps, st) then ps[st.best.value].loss else 0.0
  }

  function LeastLoss(ps: Peers, st: DrState, new': Prefix, pub: Prefix): Prefix
    requires new' in ps && pub in ps
  {
    var r := if ps[pub].loss < ps[new'].loss then pub else new';
    if Holds(ps, st) && ps[st.best.value].loss < ps[r].loss then st.best.value else r
  }

  // The new route beats the public one.
  function TowardsNew(ps: Peers, cfg: Config, st: DrState, new': Prefix): DrState
    requires new' in ps
  {
    if !Holds(ps, st) || st.best == Some(new') || Recommended(st.underdog, cfg.averageSize, new')
       || ExceedsHalf(ps[st.best.value].latency, ps[new'].latency, cfg)
    then Settle(Some(new'))
    else st.(underdog := Update(st.underdog, new'))
  }

  // It does not; the public route is wanted.
  function TowardsPublic(ps: Peers, cfg: Config, st: DrState, pub: Prefix): DrState
    requires pub in ps
  {
    if st.best == Some(pub) || !Holds(ps, st) || ps[st.best.value].latency > ps[pub].latency
       || Recommended(st.underdog, cfg.averageSize, pub)
       || !ExceedsHalf(ps[pub].latency, ps[st.best.value].latency, cfg)
    then Settle(Some(pub))
    else st.(underdog := Update(st.underdog, pub))
  }

  function PrevLatency(ps: Peers, st: DrState): real {
    if Holds(ps, st) then ps[st.best.value].latency else 0.0
  }

  // The reason that the calculation leaves behind, when `last` is that of the call before.
  function DrReason(ps: Peers, cfg: Config, st: DrState, new': Prefix, pub: Option<Prefix>, last: Reason): Reason
    requires new' in ps && (pub.Some? ==> pub.value in ps)
  {
    var next := DrNext(ps, cfg, st, new', pub).best;
    if pub.None? then Reason(NewRoute, 0.0, ps[new'].latency)
    else if ps[new'].incomplete then
      if st.best.Some? then Reason(NoChange, PrevLatency(ps, st), PrevLatency(ps, st))
      else if next == pub then Reason(NewRoute, 0.0, ps[pub.value].latency)
      else last
    else if pub == Some(new') then Reason(if next == st.best then NoChange else LowerLatency, PrevLatency(ps, st), ps[new'].latency)
    else if ps[pub.value].loss + HeldLoss(ps, st) > 0.0 then
      var r := LeastLoss(ps, st, new', pub.value);
      if next == st.best then Reason(NoChange, PrevLatency(ps, st), ps[r].latency)
      else if Holds(ps, st) then Reason(LowerLoss, HeldLoss(ps, st), ps[r].loss)
      else Reason(NewRoute, 0.0, ps[r].loss)
    else if next == st.best then Reason(NoChange, PrevLatency(ps, st), ps[new'].latency)
    else if Holds(ps, st) then Reason(LowerLatency, PrevLatency(ps, st), ps[new'].latency)
    else Reason(NewRoute, 0.0, ps[new'].loss)
  }

  /** The reason says that nothing changed iff the held route stayed the same, but for two cases: without a
      public route it always announces a new one, and with nothing to hold yet it keeps the last reason. */
  lemma DrReasonTruthful(ps: Peers, cfg: Config, st: DrState, new': Prefix, pub: Option<Prefix>, last: Reason)
    requires new' in ps && (pub.Some? ==> pub.value in ps)
    ensures var next := DrNext(ps, cfg, st, new', pub).best; var why := DrReason(ps, cfg, st, new', pub, last);
            (why.kind == NoChange <==> next == st.best) <==>
            && !(pub.None? && st.best == Some(new'))
            && !(pub.Some? && ps[new'].incomplete && st.best.None? && last.kind != NoChange
                 && (ps[pub.value].loss != 0.0 || ps[pub.value].latency <= 0.0))
  {
    hide Exceeds, ExceedsHalf, Recommended;
  }

  /** The values that come with the reason: the losses of the route left and of the one taken, which is not larger, or the
      latencies of the route left and of the momentary best, whichever route is taken. */
  lemma DrReasonValues(ps: Peers, cfg: Config, st: DrState, new': Prefix, pub: Option<Prefix>, last: Reason)
    requires new' in ps && (pub.Some? ==> pub.value in ps) && !ps[new'].incomplete
    ensures var next := DrNext(ps, cfg, st, new', pub).best; var why := DrReason(ps, cfg, st, new', pub, last);
            && next.Some? && next.value in ps
            && (why.kind == LowerLoss ==>
                  Holds(ps, st) && why.before == ps[st.best.value].loss >= why.now == ps[next.value].loss)
            && (why.kind == LowerLatency ==>
                  why.before == (if Holds(ps, st) then ps[st.best.value].latency else 0.0) && why.now == ps[new'].latency)
            && (why.kind == NewRoute ==> why.before == 0.0 && (pub.None? || !Holds(ps, st)))
            && why.kind != RouteDelete
  {
    hide Exceeds, ExceedsHalf, Recommended;
  }

  /** While the window of the momentary best fills, a route that is held stays, peer or not; without one the public route
      is taken if it works. */
  lemma DrPatient(ps: Peers, cfg: Config, st: DrState, new': Prefix, pub: Prefix)
    requires new' in ps && pub in ps && ps[new'].incomplete
    ensures DrNext(ps, cfg, st, new', Some(pub)) ==
            Settle(if st.best.Some? || ps[pub].loss != 0.0 || ps[pub].latency <= 0.0 then st.best else Some(pub))
  {
  }

  /** Without a public route the momentary best is taken, and announced as new by every call. */
  lemma AlwaysNew(ps: Peers, cfg: Config, st: DrState, new': Prefix, last: Reason)
    requires new' in ps
    ensures DrNext(ps, cfg, st, new', None).best == Some(new')
    ensures DrReason(ps, cfg, st, new', None, last) == Reason(NewRoute, 0.0, ps[new'].latency)
  {
  }

  // ---- Loss ------------------------------------------------------------------------

  /** Lower loss is a must, when there is no public route or the momentary best has a full window. */
  lemma DrMinLoss(ps: Peers, cfg: Config, st: DrState, new': Prefix, pub: Option<Prefix>)
    requires AllValid(ps) && IsMomentaryBest(ps, new') && (pub.Some? ==> pub.value in ps)
    requires pub.None? || !ps[new'].incomplete
    ensures var r := DrNext(ps, cfg, st, new', pub).best; r.Some? && MinLoss(ps, r.value)
  {
    assert MinLoss(ps, new');
  }

  lemma {:induction false} NotAPeer(ps: Peers) returns (p: Prefix)
    ensures p !in ps
  {
    var bound := AddrBound(ps.Keys);
    p := Prefix(bound, 0);
  }

  lemma {:induction false} AddrBound(keys: set<Prefix>) returns (bound: nat)
    ensures forall p :: p in keys ==> p.addr < bound
  {
    bound := 0;
    if keys != {} {
      var p :| p in keys;
      bound := AddrBound(keys - {p});
      if bound <= p.addr {
        bound := p.addr + 1;
      }
    }
  }

  /** That condition is exact: otherwise a route held from before may not even be a peer any more. */
  lemma DrMinLossExactly(ps: Peers, cfg: Config, new': Prefix, pub: Option<Prefix>)
    requires AllValid(ps) && IsMomentaryBest(ps, new') && (pub.Some? ==> pub.value in ps)
    ensures (pub.None? || !ps[new'].incomplete) <==>
            forall st :: var r := DrNext(ps, cfg, st, new', pub).best; r.Some? && MinLoss(ps, r.value)
  {
    if pub.None? || !ps[new'].incomplete {
      forall st ensures var r := DrNext(ps, cfg, st, new', pub).best; r.Some? && MinLoss(ps, r.value) {
        DrMinLoss(ps, cfg, st, new', pub);
      }
    } else {
      var p := NotAPeer(ps);
      var st := Settle(Some(p));
      assert DrNext(ps, cfg, st, new', pub).best == Some(p);
    }
  }

  // ---- Convergence -------------------------------------------------------------------

  // Constant statistics, every peer valid, one public peer, a unique momentary best with a full window.
  ghost predicate Steady(ps: Peers, new': Prefix, pub: Prefix) {
    && AllValid(ps) && pub in ps && new' in ps && !ps[new'].incomplete
    && (forall b :: IsMomentaryBest(ps, b) <==> b == new')
    && (forall p :: p in ps && ps[p].public <==> p == pub)
  }

  function Goal(ps: Peers, cfg: Config, new': Prefix, pub: Prefix): Prefix
    requires pub in ps && new' in ps
  {
    if new' != pub && (ps[pub].loss > 0.0 || Exceeds(ps[pub].latency, ps[new'].latency, cfg.ratio, cfg.diff)) then new'
    else pub
  }

  function DrRun(ps: Peers, cfg: Config, st: DrState, new': Prefix, pub: Prefix, n: nat): DrState
    requires new' in ps && pub in ps
  {
    if n == 0 then st else DrNext(ps, cfg, DrRun(ps, cfg, st, new', pub, n - 1), new', Some(pub))
  }

  // Calls that are still needed at most. A held route with loss is left at once, if need be for the
  // momentary best first.
  function CallsLeft(ps: Peers, cfg: Config, st: DrState, new': Prefix, pub: Prefix): (n: nat)
    requires new' in ps && pub in ps
    ensures n <= cfg.averageSize + 3
    ensures HeldLoss(ps, st) <= 0.0 ==> n <= cfg.averageSize + 2
    ensures ps[pub].loss > 0.0 || pub == new' ==> n <= 1
  {
    var goal := Goal(ps, cfg, new', pub);
    if st.best == Some(goal) then 0
    else if ps[pub].loss > 0.0 || pub == new' || (HeldLoss(ps, st) > 0.0 && goal == new') then 1
    else if HeldLoss(ps, st) > 0.0 then cfg.averageSize + 3
    else if st.underdog.route != Some(goal) then cfg.averageSize + 2
    else if st.underdog.count >= cfg.averageSize then 1
    else cfg.averageSize - st.underdog.count + 1
  }

  lemma DrProgress(ps: Peers, cfg: Config, st: DrState, new': Prefix, pub: Prefix)
    requires Steady(ps, new', pub)
    ensures var st' := DrNext(ps, cfg, st, new', Some(pub)); var goal := Goal(ps, cfg, new', pub);
            && (st.best == Some(goal) ==> st'.best == Some(goal))
            && (st.best != Some(goal) ==> CallsLeft(ps, cfg, st', new', pub) < CallsLeft(ps, cfg, st, new', pub))
  {
    assert IsMomentaryBest(ps, new');
  }

  /** From any held route and any underdog, however large its counter, the selector reaches its goal
      and never leaves it: with one call when the public route has loss, else within limit + 3 calls, and
      limit + 2 when the route held at first has no loss. */
  lemma {:induction false} DrConverges(ps: Peers, cfg: Config, st: DrState, new': Prefix, pub: Prefix, n: nat)
    requires Steady(ps, new', pub)
    ensures var goal := Goal(ps, cfg, new', pub); var r := DrRun(ps, cfg, st, new', pub, n);
            && (n >= CallsLeft(ps, cfg, st, new', pub) ==> r.best == Some(goal))
            && (ps[pub].loss > 0.0 && n >= 1 ==> r.best == Some(goal))
            && (HeldLoss(ps, st) <= 0.0 && n >= cfg.averageSize + 2 ==> r.best == Some(goal))
            && (n >= cfg.averageSize + 3 ==> r.best == Some(goal))
    ensures var r := DrRun(ps, cfg, st, new', pub, n);
            || r.best == Some(Goal(ps, cfg, new', pub))
            || CallsLeft(ps, cfg, r, new', pub) + n <= CallsLeft(ps, cfg, st, new', pub)
  {
    if n > 0 {
      DrConverges(ps, cfg, st, new', pub, n - 1);
      DrProgress(ps, cfg, DrRun(ps, cfg, st, new', pub, n - 1), new', pub);
    }
  }

  // The held route is a peer without loss, and close enough to the goal for the selector to hesitate.
  ghost predicate Hesitates(ps: Peers, cfg: Config, cur: Prefix, new': Prefix, pub: Prefix)
    requires Steady(ps, new', pub)
  {
    var goal := Goal(ps, cfg, new', pub);
    && cur in ps && cur != goal && new' != pub && ps[pub].loss == 0.0 && ps[cur].loss == 0.0
    && if goal == new' then !ExceedsHalf(ps[cur].latency, ps[new'].latency, cfg)
       else ps[cur].latency <= ps[pub].latency && ExceedsHalf(ps[pub].latency, ps[cur].latency, cfg)
  }

  /** What one call decides: with loss on the public or the held route it takes the momentary best; without, it takes its
      goal at once, unless it hesitates and the goal has not been the underdog for long enough. */
  lemma DrCallExactly(ps: Peers, cfg: Config, st: DrState, new': Prefix, pub: Prefix)
    requires Steady(ps, new', pub)
    ensures var next, goal := DrNext(ps, cfg, st, new', Some(pub)), Goal(ps, cfg, new', pub);
            next.best ==
              if ps[pub].loss > 0.0 || HeldLoss(ps, st) > 0.0 then Some(new')
              else if st.best.Some? && Hesitates(ps, cfg, st.best.value, new', pub)
                      && !(st.underdog.route == Some(goal) && st.underdog.count >= cfg.averageSize) then st.best
              else Some(goal)
  {
    assert IsMomentaryBest(ps, new');
  }

  /** The bound is attained: a selector that hesitates, and has not been watching its goal, holds its
      route for exactly limit + 1 calls and changes with the next. */
  lemma {:induction false} DrHesitation(ps: Peers, cfg: Config, st: DrState, new': Prefix, pub: Prefix, n: nat)
    requires Steady(ps, new', pub) && st.best.Some? && Hesitates(ps, cfg, st.best.value, new', pub)
    requires st.underdog.route != Some(Goal(ps, cfg, new', pub))
    ensures var goal := Goal(ps, cfg, new', pub);
            DrRun(ps, cfg, st, new', pub, n).best == if n <= cfg.averageSize + 1 then st.best else Some(goal)
    ensures 1 <= n <= cfg.averageSize + 1 ==>
              DrRun(ps, cfg, st, new', pub, n).underdog == Candidate(Some(Goal(ps, cfg, new', pub)), n - 1)
  {
    assert ps[new'].loss == 0.0 by {
      assert IsMomentaryBest(ps, new');
    }
    hide Exceeds, ExceedsHalf, IsMomentaryBest, AllValid;
    if n > 0 {
      DrHesitation(ps, cfg, st, new', pub, n - 1);
    }
  }

  lemma {:induction false} RunFromNext(ps: Peers, cfg: Config, st: DrState, new': Prefix, pub: Prefix, n: nat)
    requires new' in ps && pub in ps && n >= 1
    ensures DrRun(ps, cfg, st, new', pub, n) == DrRun(ps, cfg, DrNext(ps, cfg, st, new', Some(pub)), new', pub, n - 1)
  {
    if n > 1 {
      RunFromNext(ps, cfg, st, new', pub, n - 1);
    } else {
      assert DrRun(ps, cfg, st, new', pub, 0) == st;
    }
  }

  /** So is the larger one: with loss on the held route only, and a momentary best at which the selector
      hesitates, it detours over that best for limit + 2 calls before it takes the public route. */
  lemma DrDetour(ps: Peers, cfg: Config, st: DrState, new': Prefix, pub: Prefix, n: nat)
    requires Steady(ps, new', pub) && HeldLoss(ps, st) > 0.0
    requires Hesitates(ps, cfg, new', new', pub)
    ensures DrRun(ps, cfg, st, new', pub, n).best
            == if n == 0 then st.best else if n <= cfg.averageSize + 2 then Some(new') else Some(pub)
  {
    if n > 0 {
      assert IsMomentaryBest(ps, new');
      var st' := DrNext(ps, cfg, st, new', Some(pub));
      assert st' == Settle(Some(new'));
      RunFromNext(ps, cfg, st, new', pub, n);
      DrHesitation(ps, cfg, st', new', pub, n - 1);
    }
  }

  // The detour is taken with three peers: the public one is slower than the best, but by less than the difference asked for.
  lemma DetourArises(averageSize: nat) returns (ps: Peers, cfg: Config, st: DrState, new': Prefix, pub: Prefix)
    ensures cfg.averageSize == averageSize && Steady(ps, new', pub) && HeldLoss(ps, st) > 0.0
    ensures Goal(ps, cfg, new', pub) == pub && Hesitates(ps, cfg, new', new', pub)
  {
    pub, new' := Prefix(1, 32), Prefix(2, 32);
    var held := Prefix(3, 32);
    cfg, st := Config(averageSize, 1.1, 30.0, 0.0), Settle(Some(held));
    ps := map[pub := Stats(true, 0.0, 100.0, false, true, 1), new' := Stats(true, 0.0, 80.0, false, false, 2),
              held := Stats(true, 0.5, 90.0, false, false, 3)];
    assert ps[new'].latency == 80.0 && ps[pub].latency == 100.0;
    assert !IsMomentaryBest(ps, pub) && !IsMomentaryBest(ps, held);
  }
}
