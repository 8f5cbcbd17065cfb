/**
 Addresses, the kernel routing table, and the four helpers through which the
 agent reads and writes it (pkg/netcfg/route.go).
 */
module Net {

  datatype Option<+T> = None | Some(value: T)

  type Addr = nat

  datatype Prefix = Prefix(addr: Addr, bits: nat)

  datatype Route = Route(ifname: string, gw: Option<Addr>)

  type Table = map<Prefix, Route>

  // What the table holds for one destination.
  type Slot = Option<Route>

  function Lookup(t: Table, p: Prefix): Slot {
    if p in t then Some(t[p]) else None
  }

  function Put(t: Table, p: Prefix, s: Slot): Table {
    match s
    case None => t - {p}
    case Some(r) => t[p := r]
  }

  lemma PutChanges(t: Table, p: Prefix, s: Slot)
    ensures var t' := Put(t, p, s);
            && Lookup(t', p) == s
            && (forall q :: q != p ==> Lookup(t', q) == Lookup(t, q))
            && t'.Keys <= t.Keys + {p}
  {
  }

  lemma PutSame(t: Table, p: Prefix)
    ensures Put(t, p, Lookup(t, p)) == t
  {
  }

  // RouteSearch compares addresses and ignores masks, so a route to a shorter or
  // longer prefix with the same address counts as a route to `p`.
  ghost predicate Shadowed(t: Table, p: Prefix) {
    exists q :: q in t && q.addr == p.addr
  }

  ghost predicate IsSearch(t: Table, p: Prefix, found: Option<string>) {
    && (found.Some? <==> Shadowed(t, p))
    && (found.Some? ==> exists q :: q in t && q.addr == p.addr && t[q].ifname == found.value)
  }

  // No other destination has the address of one of `own`, so the mask-blind search cannot confuse these.
  ghost predicate Alone(others: set<Prefix>, own: set<Prefix>) {
    forall p, q :: p in own && q in others + own && p.addr == q.addr ==> p == q
  }

  function Found(s: Slot): Option<string> {
    match s
    case None => None
    case Some(r) => Some(r.ifname)
  }

  /** When no other route has its address, the search answers for the destination itself. */
  lemma SearchIsLookup(t: Table, p: Prefix, found: Option<string>)
    requires Alone(t.Keys, {p}) && IsSearch(t, p, found)
    ensures found == Found(Lookup(t, p))
  {
    if found.Some? {
      var q :| q in t && q.addr == p.addr && t[q].ifname == found.value;
      assert q in t.Keys + {p};
    }
  }

  lemma SearchShadowed(t: Table, p: Prefix, found: Option<string>)
    requires IsSearch(t, p, found)
    ensures found.Some? <==> Shadowed(t, p)
  {
  }

  lemma SearchAnswers(t: Table, p: Prefix) returns (found: Option<string>)
    ensures IsSearch(t, p, found)
  {
    if q :| q in t && q.addr == p.addr {
      found := Some(t[q].ifname);
    } else {
      found := None;
    }
  }

  // Effect of the three writing calls on the slot they name; `taken` is the
  // answer of the address search made inside RouteAdd.
  function AddSlot(s: Slot, links: set<string>, taken: bool, r: Route): Slot {
    if r.ifname in links && !taken then Some(r) else s
  }

  function DelSlot(s: Slot, links: set<string>, ifname: string): Slot {
    if ifname in links && s.Some? && s.value.ifname == ifname then None else s
  }

  function ReplaceSlot(s: Slot, links: set<string>, r: Route): Slot {
    if r.ifname in links then Some(r) else s
  }

  // The operating system as the agent sees it: its routes, and the interfaces that exist.
  datatype Kernel = Kernel(table: Table, links: set<string>)

  function Write(k: Kernel, p: Prefix, s: Slot): (k': Kernel)
    ensures k'.links == k.links && k'.table.Keys <= k.table.Keys + {p}
  {
    k.(table := Put(k.table, p, s))
  }

  method RouteSearch(k: Kernel, p: Prefix) returns (found: Option<string>)
    ensures IsSearch(k.table, p, found)
  {
    found := None;
    var todo := k.table.Keys;
    while todo != {}
      invariant todo <= k.table.Keys
      invariant found.None? ==> forall q :: q in k.table && q !in todo ==> q.addr != p.addr
      invariant found.Some? ==> exists q :: q in k.table && q.addr == p.addr && k.table[q].ifname == found.value
    {
      var q :| q in todo;
      if q.addr == p.addr {
        found := Some(k.table[q].ifname);
      }
      todo := todo - {q};
    }
  }

  // An identical route that is already there is not an error; any other route to the
  // same address is.
  method RouteAdd(k: Kernel, ifname: string, gw: Option<Addr>, p: Prefix) returns (k': Kernel, ok: bool)
    ensures k' == Write(k, p, AddSlot(Lookup(k.table, p), k.links, Shadowed(k.table, p), Route(ifname, gw)))
    ensures ok <==> ifname in k.links && (Shadowed(k.table, p) ==> Lookup(k.table, p) == Some(Route(ifname, gw)))
  {
    if ifname !in k.links {
      return k, false;
    }
    if p in k.table && k.table[p] == Route(ifname, gw) {
      return k, true;
    }
    var found := RouteSearch(k, p);
    if found.Some? {
      return k, false;
    }
    k', ok := k.(table := k.table[p := Route(ifname, gw)]), true;
  }

  // Deleting a route that is not on this interface is not an error.
  method RouteDel(k: Kernel, ifname: string, p: Prefix) returns (k': Kernel, ok: bool)
    ensures k' == Write(k, p, DelSlot(Lookup(k.table, p), k.links, ifname))
    ensures ok <==> ifname in k.links
  {
    if ifname !in k.links {
      return k, false;
    }
    k', ok := k, true;
    if p in k.table && k.table[p].ifname == ifname {
      k' := k.(table := k.table - {p});
    }
  }

  method RouteReplace(k: Kernel, ifname: string, gw: Option<Addr>, p: Prefix) returns (k': Kernel, ok: bool)
    ensures k' == Write(k, p, ReplaceSlot(Lookup(k.table, p), k.links, Route(ifname, gw)))
    ensures ok <==> ifname in k.links
  {
    if ifname !in k.links {
      return k, false;
    }
    k', ok := k.(table := k.table[p := Route(ifname, gw)]), true;
  }

  // ---- Operations that visit destinations one by one, in any order --------------------

  // What a search for each destination answered when it was visited.
  type Answers = map<Prefix, Option<string>>

  function Answer(answers: Answers, p: Prefix): Option<string> {
    if p in answers then answers[p] else None
  }

  // `u` is `t` with other routes to some of the destinations, but not to `p`.
  ghost predicate Elsewhere(t: Table, u: Table, keys: set<Prefix>, p: Prefix) {
    forall q :: q !in keys || q == p ==> Lookup(u, q) == Lookup(t, q)
  }

  ghost predicate IsAnswer(t: Table, keys: set<Prefix>, p: Prefix, found: Option<string>) {
    exists u: Table :: Elsewhere(t, u, keys, p) && IsSearch(u, p, found)
  }

  ghost predicate AreAnswers(t: Table, keys: set<Prefix>, answers: Answers) {
    answers.Keys == keys && forall p :: p in answers ==> IsAnswer(t, keys, p, answers[p])
  }

  /** The answer for a destination that is alone does not depend on the order of the visits. */
  lemma AnswerAlone(t: Table, keys: set<Prefix>, p: Prefix, found: Option<string>)
    requires Alone(t.Keys, keys) && p in keys && IsAnswer(t, keys, p, found)
    ensures found == Found(Lookup(t, p))
  {
    var u: Table :| Elsewhere(t, u, keys, p) && IsSearch(u, p, found);
    forall q | q in u.Keys + {p} && q.addr == p.addr ensures q == p {
      assert Lookup(u, q) == Lookup(t, q) || q in keys;
    }
    SearchIsLookup(u, p, found);
  }

  // All destinations but `todo` have been visited, and `after` tells what each visit made of the slot.
  ghost predicate Underway(k: Kernel, k': Kernel, keys: set<Prefix>, todo: set<Prefix>, answers: Answers,
                           after: (Prefix, Option<string>) -> Slot) {
    && k'.links == k.links && todo <= keys && answers.Keys == keys - todo
    && (forall p :: p in answers ==> IsAnswer(k.table, keys, p, answers[p]))
    && forall q :: Lookup(k'.table, q) == if q in answers then after(q, answers[q]) else Lookup(k.table, q)
  }

  lemma NothingVisited(k: Kernel, keys: set<Prefix>, after: (Prefix, Option<string>) -> Slot)
    ensures Underway(k, k, keys, keys, map[], after)
  {
  }

  lemma Visiting(k: Kernel, k': Kernel, keys: set<Prefix>, todo: set<Prefix>, answers: Answers,
                 after: (Prefix, Option<string>) -> Slot, ip: Prefix, found: Option<string>)
    requires Underway(k, k', keys, todo, answers, after) && ip in todo && IsSearch(k'.table, ip, found)
    ensures k'.links == k.links && Lookup(k'.table, ip) == Lookup(k.table, ip)
    ensures Underway(k, Write(k', ip, after(ip, found)), keys, todo - {ip}, answers[ip := found], after)
    ensures Write(k', ip, Lookup(k'.table, ip)) == k'
  {
    hide IsSearch;
    assert Elsewhere(k.table, k'.table, keys, ip);
    PutChanges(k'.table, ip, after(ip, found));
    PutSame(k'.table, ip);
  }

  lemma AllVisited(k: Kernel, k': Kernel, keys: set<Prefix>, answers: Answers, after: (Prefix, Option<string>) -> Slot)
    requires Underway(k, k', keys, {}, answers, after)
    ensures k'.links == k.links && AreAnswers(k.table, keys, answers)
    ensures forall q :: Lookup(k'.table, q) == if q in keys then after(q, answers[q]) else Lookup(k.table, q)
  {
  }

  // The next of a set, in no particular order.
  method Next<T(==)>(todo: set<T>) returns (x: T)
    requires todo != {}
    ensures x in todo
  {
    x :| x in todo;
  }
}
