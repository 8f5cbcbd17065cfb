/**
 What a path selector answers (agent/router/peermon/routeselector/interface.go, reason.go).
 */
module SelectedRoutes {
  import opened Net

  datatype Kind = NoChange | NewRoute | LowerLoss | LowerLatency | RouteDelete

  // Why the held route is what it is, with a value of the route before and of the one now.
  datatype Reason = Reason(kind: Kind, before: real, now: real) {
    function Text(): string {
      match kind
      case NoChange => "nochange"
      case NewRoute => "new"
      case LowerLoss => "loss"
      case LowerLatency => "latency"
      case RouteDelete => "delete"
    }
  }

  /** The controller can tell the kinds apart. */
  lemma TextsDiffer(a: Reason, b: Reason)
    ensures a.Text() == b.Text() <==> a.kind == b.kind
  {
    assert forall r: Reason :: r.Text()[0] in "nlde";
    assert "nochange"[1] != "new"[1] && "loss"[1] != "latency"[1];
  }

  // No address means that the route is to be deleted.
  datatype SelectedRoute = SelectedRoute(ip: Option<Addr>, id: int, reason: Reason)

  const DELETED := SelectedRoute(None, 0, Reason(RouteDelete, 0.0, 0.0))
}
