# Verification of the routing core

A Dafny model of the agent's routing core: the caches that decide which routes, peers and
interfaces exist, and their agreement with the operating system. `dafny verify dfyconfig.toml`
checks the whole project.

| file | models |
|---|---|
| `Net.dfy` | prefixes, the kernel routing table, the four calls that read and write it |
| `GatewayLists.dfy` | one destination: its gateways, as values, and what each operation makes of them and of the kernel route |
| `GatewayMoves.dfy` | the same told entry by entry: where merges, reroutes and first commits lead |
| `Monitors.dfy` | one connection group as a value: all its destinations, and the kernel table |
| `ServiceMon.dfy` | entries, lists and the service monitor as the objects they are, proved against those values |
| `ServiceRuns.dfy`, `ServiceRefresh.dfy` | runs of a service monitor: agreement with the kernel, reports, full refresh |
| `ServiceDriver.dfy` | the monitor object takes exactly the steps of these runs, and a refresh keeps its objects |
| `PeerFlags.dfy` | the flags of a peer |
| `Router.dfy` | all groups as values: the loop that commits and resolves |
| `PeerRuns.dfy` | runs of the peers of a group: when a committed peer has its own route |
| `RouterClaims.dfy`, `RouterLeaks.dfy` | when a prefix has one claimant only; which routes a commit leaves behind |
| `PeerStats.dfy`, `PathSelection.dfy`, `DirectRoute.dfy` | the peers of a group with their moving averages, the momentary best, the two selectors with hysteresis |
| `SelectedRoutes.dfy` | what a selector answers |
| `PeerMon.dfy`, `RouterGroups.dfy` | the peer monitor object; the groups of the router as the objects they are, proved against `Router.dfy` |
| `HostRoutes.dfy` | reference-counted host routes |
| `WireguardDevices.dfy`, `WireguardPeers.dfy` | the WireGuard caches and their synchronisation |
| `PingData.dfy`, `PeerWatch.dfy` | ping statistics, their merging, and the watcher that accumulates them |

How to read it:

- An operation that changes objects is a method whose contract equates the new contents with a
  function of the old ones (`Added`, `Applied`, `Rerouted`, `DrNext`, `Merged` ...); the properties
  are lemmas about these functions, and about runs of them. For each function some lemma says what it
  computes without naming it (`...Exact`, `...Exactly`, and `GatewayMoves.dfy`).
- The kernel is a value `Kernel(table, links)` that the calls take and return. `links` are the
  existing interfaces: a call for a missing one fails and changes nothing.
- Go visits maps in no particular order. Every loop over a map picks an arbitrary remaining key,
  so its contract holds for every order.
- The route search compares addresses and ignores masks (`pkg/netcfg/route.go:133`). Contracts of
  operations hold for any answers such a search can give (`AreAnswers`), whatever the table. Results
  that need the answers to be exact ask that no other route or destination has the address of a
  managed prefix (`Alone`); routes of others may share addresses as they like. `SetUpShadowed` says
  what happens otherwise.
- `Undisturbed` in `ServiceRuns.dfy` spells out what agreement with the kernel needs from outside:
  interfaces exist, and nobody else writes the route of an enabled prefix once its list is committed.
  A route that is there before, of an earlier run or of anybody, is only asked to be one that the commit
  adopts, and not to be contradicted by a reroute until then; `DemandsExact` shows that a commit or
  reroute for which this does not hold ends in disagreement.
- Latencies and losses (`float32`) are reals.

Where the code and what it says about itself differ, the model follows the code:

- `HasPeer` (`agent/router/peermon/peerlist/peerlist.go:43-48`) is always false (`HasPeerNever`), so
  peers never claim a prefix against other groups.
- Adding to an enabled list does not look for a conflict, so a prefix can get a second claimant
  (`ServiceAddedExclusive` says exactly when, `Collision` shows such a run).
- A peer key that is readable but not written in its canonical form, while that form is not cached,
  is set and deleted in turn by successive `applyPeers` (`KeyFlaps`; `FlapsArise` shows such a key).
- `Recv` (`pkg/multiping/pingdata/stats.go:69-82`) weighs with the count it has already advanced:
  replies of 100 and 200 average to 133 (`RecvNotMean`). `RecvMeanExactly` says for which replies the
  stored average is the rounded mean, and `RunBetween` what it keeps in any case.
- A group that loses its last peer is dropped without clearing its services
  (`agent/router/apply.go:58-71`); `LeftBehind` says exactly which routes stay, `Leak` shows one.
- A device that shares a key with another can be taken for it, so `Close` may leave a device in the
  cache (`MistakenThree`), though it asks for each to be removed exactly once.
- The first commit of a list does not always adopt the route of an earlier run (`AdoptedExactly` says
  when; `Restarted` shows a list that does and one that does not).
- The reason of a route change does not always tell whether the route changed
  (`SpeedReasonTruthful`, `DrReasonTruthful` say when; `ThresholdsMatter`, `AlwaysNew` show it).
- While the momentary best has an incomplete window and there is a public peer, the direct selector may
  hold a route that has not the least loss, or is no peer any more; `DrMinLossExactly` draws the line.
- A commit clears the flags of a peer whether or not its route could be set; `CommitExact` says when
  all committed peers have theirs, `Stranded` shows one that has not, and `Orphaned` a route that is
  left by a peer disabled while it was in place (`PeerLeaves` says when).
- A commit forgets the deletion of a peer whose flags ask for addition as well (`SurvivesExactly`), so a
  peer that is added and deleted before the commit stays (`DeletionForgotten`).

## Model

| member | source | states |
|---|---|---|
| Net.SearchIsLookup | pkg/netcfg/route.go:117-143 | When no other route has the address of the prefix, the search that compares addresses and ignores masks finds exactly the interface of its route, whatever else is in the table. |
| Net.AnswerAlone | pkg/netcfg/route.go:117-143 | When a loop over destinations changes routes as it goes, the answer for each that shares its address with nothing is the interface of its route before the loop, in any order. |
| Net.RouteSearch | pkg/netcfg/route.go:117-143 | Finds an interface iff some route has the address of the prefix, whatever its mask; the interface is that of such a route. |
| Net.RouteAdd | pkg/netcfg/route.go:12-50 | Adds the route iff the interface exists and no route has its address; succeeds iff the interface exists and the address is free or has the identical route. |
| Net.RouteDel | pkg/netcfg/route.go:52-86 | Removes the route iff it is on the given interface; only a missing interface is an error. |
| Net.RouteReplace | pkg/netcfg/route.go:88-115 | Puts the route in place of whatever was there, iff the interface exists. |
| ServiceMon.RouteEntry.SetFlag | agent/router/servicemon/entry.go:26-28 | Sets exactly the flags of the mask. |
| ServiceMon.RouteEntry.ClearFlags | agent/router/servicemon/entry.go:34-36 | Clears exactly the flags of the mask. |
| ServiceMon.RouteList.Pending | agent/router/servicemon/list.go:46-56 | The two counts are those of the entries to be added and to be deleted. |
| GatewayLists.CountsTell | agent/router/servicemon/list.go:46-56 | A count is zero, or the length, iff no entry, or every entry, has the mark. |
| ServiceMon.RouteList.ResetPending | agent/router/servicemon/list.go:63-67 | Clears both pending marks of every entry and nothing else. |
| ServiceMon.RouteList.GetDefault | agent/router/servicemon/list.go:71-86 | The object of the active entry, else of the first one not marked for deletion. |
| ServiceMon.RouteList.GetActive | agent/router/servicemon/list.go:89-97 | The object of the first active entry, or none. |
| ServiceMon.RouteList.Add | agent/router/servicemon/list.go:99-117 | A listed gateway keeps its entry object and loses its delete mark; a new one is appended, marked for addition. Gateways stay distinct and at most one entry active. |
| ServiceMon.RouteList.MarkDel | agent/router/servicemon/list.go:119-128 | Marks exactly the entries of the gateway for deletion. |
| ServiceMon.RouteList.Find | agent/router/servicemon/list.go:130-137 | The first entry object of a gateway, or none. |
| ServiceMon.RouteList.Flush | agent/router/servicemon/list.go:139-144 | Marks every entry for deletion. |
| ServiceMon.RouteList.SetRoute | agent/router/servicemon/apply.go:91-137 | First commit: installs the default entry when the destination is free, else adopts the entry on the interface that has the route; resets all marks; reports the entry and whether its route is in. |
| ServiceMon.RouteList.ClearRoute | agent/router/servicemon/apply.go:139-156 | Removes the route of the active entry; no entry stays active and no mark stays. |
| ServiceMon.RouteList.MergeRoutes | agent/router/servicemon/apply.go:158-188 | Moves the route to the selected gateway unless that is marked for deletion, drops the marked entries (the others stay the same objects, in order), and settles the rest. |
| ServiceMon.RouteList.Reroute | agent/router/servicemon/reroute.go:58-97 | Moves the active flag and the kernel route from one entry object to another, or from or to none; the old entry may have left the list already. |
| ServiceMon.KeptObjectsVals | agent/router/servicemon/apply.go:175-184 | The objects that a merge keeps hold exactly the unmarked entries, each once. |
| ServiceMon.SameEntry | agent/router/servicemon/reroute.go:58-64 | Comparing entries by identity is comparing their gateways. |
| GatewayLists.AddedKeeps | agent/router/servicemon/list.go:99-117 | Adding keeps gateways distinct and at most one active; a list no commit has seen stays so and becomes non-empty. |
| GatewayLists.MarkedKeeps | agent/router/servicemon/list.go:119-144 | The same for marking one gateway or all. |
| GatewayLists.AppliedKeeps | agent/router/servicemon/apply.go:13-59 | The same for every way of committing, and for rerouting. |
| GatewayLists.KeptMembers | agent/router/servicemon/apply.go:175-184 | What a merge keeps is exactly the entries not marked for deletion. |
| GatewayLists.ActivatedActive | agent/router/servicemon/reroute.go:58-97 | After a move the target is the one active entry, or there is none. |
| GatewayLists.MoveExact | agent/router/servicemon/reroute.go:58-97 | Exact condition under which cache and kernel agree after a move, for any previous kernel slot. |
| GatewayLists.SetUpExact | agent/router/servicemon/apply.go:91-137 | Cache and kernel agree after a first commit iff a free destination gets an existing interface, and a taken one is on the interface of some entry. |
| GatewayLists.SetUpShadowed | agent/router/servicemon/apply.go:98-125 | Where the mask-blind search is misled by another prefix of the same address, they agree only if no entry is adopted. |
| GatewayLists.ClearExact | agent/router/servicemon/apply.go:139-156 | Cache and kernel agree after clearing iff there is no route, or it is the one of the active entry and its interface exists. |
| GatewayMoves.AdditionExact | agent/router/servicemon/srvmon.go:34-48 | A new gateway comes last, with interface, key and connection of the path, to be added; a known one loses its mark and keeps the rest; a new list takes group and disabled state; nothing else changes. |
| GatewayMoves.DeletionExact | agent/router/servicemon/srvmon.go:50-59 | Only the mark of the gateway, in the list of the prefix, changes. |
| GatewayMoves.LeavesExactly | agent/router/servicemon/apply.go:29-59 | A list leaves the map with a commit iff it is enabled, not empty, and every entry is installed and to be deleted. |
| GatewayMoves.ResolvedExactly | agent/router/servicemon/apply.go:77-89 | A list stays disabled iff it was and its prefix is still in conflict, nothing else of it changes, and what is counted are those enabled. |
| GatewayMoves.LiveExactly | agent/router/servicemon/srvmon.go:61-74 | A prefix is claimed iff its list is enabled and not every entry is installed and to be deleted. |
| GatewayMoves.MergeLeads | agent/router/servicemon/apply.go:158-188 | A merge activates the entry of the selected gateway, just added or not, iff it is listed and not marked for deletion; otherwise nothing is active. |
| GatewayMoves.RerouteLeads | agent/router/servicemon/reroute.go:40-97 | A reroute activates the entry of the selected gateway iff it is listed, marked or not; otherwise nothing is active. |
| GatewayMoves.MergeFollowed | agent/router/servicemon/apply.go:158-188 | From agreement the kernel route follows a merge: it stays if that entry was active, is put on its interface if not, and is deleted if there is none. |
| GatewayMoves.RerouteFollowed | agent/router/servicemon/reroute.go:40-97 | The same for a reroute. |
| GatewayMoves.MonitorRerouted | agent/router/servicemon/reroute.go:16-55 | So for every enabled destination of a monitor that reroutes, in any order of the map. |
| GatewayMoves.MonitorMerged | agent/router/servicemon/apply.go:20-59 | And for every one that a commit merges. |
| GatewayMoves.DefaultExactly | agent/router/servicemon/list.go:71-86 | The default entry is the active one, else the first in order that is not marked for deletion. |
| GatewayMoves.FirstCommit | agent/router/servicemon/apply.go:91-137 | A first commit activates and installs the first gateway of the list for a free destination, or the first on the interface of an existing route, which stays; the status names its connection and the group, and tells whether the route is in. |
| GatewayMoves.FirstCommitRefused | agent/router/servicemon/apply.go:110-131 | With a route over none of its interfaces nothing becomes active, nothing is written and nothing is told. |
| Monitors.StatusTruthful | agent/router/servicemon/apply.go:91-137 | A commit reports a destination as installed iff cache and kernel agree on it. |
| ServiceMon.ServiceMonitor.Add | agent/router/servicemon/srvmon.go:34-48 | Adds the gateway to the list of its prefix, which is created, disabled or not, when it is missing; no other list changes. Known lists stay the same objects, and their entries stay in place. |
| ServiceMon.ServiceMonitor.Del | agent/router/servicemon/srvmon.go:50-59 | Marks the gateway in the list of the prefix; an unknown prefix is an error and changes nothing. |
| ServiceMon.ServiceMonitor.HasAddress | agent/router/servicemon/srvmon.go:61-74 | The prefix is claimed iff its list is enabled and has an entry to be added or not to be deleted. |
| ServiceMon.ServiceMonitor.Close | agent/router/servicemon/srvmon.go:76-93 | Clears the route of every enabled list, touches no other route, and empties the map. |
| ServiceMon.ServiceMonitor.Flush | agent/router/servicemon/srvmon.go:95-116 | Drops the disabled lists and marks every other entry for deletion; the lists that stay are the same objects with the same entries. |
| ServiceMon.ServiceMonitor.Apply | agent/router/servicemon/apply.go:13-75 | Commits every enabled list by set, clear or merge, in any order of the map and for any answers the mask-blind search can give: new lists, new kernel table, one status for each destination set up and for no other, and the report of a changed connection. What remains are the same list and entry objects. |
| ServiceMon.ServiceMonitor.ResolveIpConflict | agent/router/servicemon/apply.go:77-89 | Enables exactly the disabled lists whose prefix is free of conflict, and counts them. |
| ServiceMon.ServiceMonitor.Reroute | agent/router/servicemon/reroute.go:16-55 | Moves every enabled list that has it to the selected gateway, with the kernel routes, for any answers of the search; the others have no active entry and no route of this group. Objects stay. |
| ServiceMon.ServiceMonitor.Announce | agent/router/servicemon/reroute.go:19-29 | Remembers the connection and reports it iff it is another one than before. |
| ServiceDriver.Execute | agent/router/servicemon/srvmon.go:34-122 | Each operation of the object, with its lists and entries, is exactly one step of the state machine of ServiceRuns, whatever the kernel holds. |
| ServiceDriver.Refresh | agent/router/servicemon/apply.go:20-59 | From a settled state Flush, any additions and Apply leave the object with exactly the wanted prefixes and gateways; each prefix and gateway that was there before keeps its very list and entry object. |
| ServiceRuns.StepAgrees | agent/router/servicemon/apply.go:13-59 | Each step of a run that nobody disturbs keeps cache and kernel in agreement, but for lists that wait for their first commit while the destination has a route already; a commit ends the waiting, and no list begins to wait without such a route. |
| ServiceRuns.RunAgrees | agent/router/servicemon/apply.go:13-188 | In every state of every undisturbed run of Add, Del, Flush, Apply, Reroute, ResolveIpConflict, Close and foreign route changes, from a restart too, the kernel routes each enabled prefix over exactly the interface of its active entry, and not at all when there is none, or its list has not been committed since it was enabled and there was a route before. After each commit there is no exception. The old route may be over any gateway; only the commit, and a reroute before it, must fit it. |
| ServiceRuns.NoRouteLeftBehind | agent/router/servicemon/apply.go:47-59 | An enabled prefix that leaves the map during such a run has a route left iff the monitor is closed while the list still waits, with the route that was there before. |
| ServiceRuns.AdoptedExactly | agent/router/servicemon/apply.go:91-188 | The first commit of a list whose destination has a route of an earlier run makes cache and kernel agree iff it adopts the route: by its interface when every entry is to be added, else if the selected gateway is on that interface. |
| ServiceRuns.WaitingRerouted | agent/router/servicemon/reroute.go:32-55 | Rerouting before that commit never touches the route, and keeps the list agreeing or waiting iff the selected gateway is none of its own or on the interface of the route. |
| ServiceRuns.DemandsExact | agent/router/servicemon/apply.go:13-188 | What an undisturbed run asks of a commit and of a reroute is exact: the state after it is in agreement, but for lists still waiting after a reroute, iff that holds. |
| ServiceRuns.Restarted | agent/router/servicemon/apply.go:91-188 | After a restart a list of two gateways adopts an old route over the second one; with one over the first, and the second deleted before the commit, it does not while nothing is selected. |
| ServiceRuns.RunWellFormed | agent/router/servicemon/list.go:63-144 | In every state of every run, disturbed or not and whatever the searches answer: gateways are distinct, at most one entry is active, and a disabled list is non-empty, inactive and wholly pending. |
| ServiceRuns.ReportsChain | agent/router/servicemon/reroute.go:16-29 | The reports of any run start from 0, each continues where the one before ended, none repeats its connection, the last leads to the current one, and all name the group. |
| ServiceRuns.StepReports | agent/router/servicemon/reroute.go:16-29 | A commit or reroute takes over the connection of the answer, 0 without one, and reports it with the text of its reason, once, iff it is another one; nothing else reports. |
| SelectedRoutes.TextsDiffer | agent/router/peermon/routeselector/reason.go:33-48 | The texts of different reasons differ. |
| ServiceRefresh.AdditionsMark | agent/router/servicemon/srvmon.go:34-48 | After Flush and any additions each list is the old one, marked unless wanted, plus the newly wanted gateways. |
| ServiceRefresh.AppliedCommits | agent/router/servicemon/apply.go:29-59 | Whichever way it takes, a commit leaves exactly the unmarked entries, settled and otherwise unchanged. |
| ServiceRefresh.RefreshReplaces | agent/router/servicemon/apply.go:20-59 | From a settled state Flush, any additions and Apply, whatever its searches answer, leave exactly the added prefixes, each with exactly its added gateways; surviving entries keep every field but the active flag, and the state is settled again. |
| Router.HasPeerNever | agent/router/peermon/peerlist/peerlist.go:43-48 | The test for a peer never holds, as the mask binds tighter than the alternative; only services claim prefixes. |
| Router.Router.HasIpConflict | agent/router/ipconflict.go:9-21 | A conflict is reported iff a service of another group has a live claim. |
| Router.Router.ResolveIpConflict | agent/router/ipconflict.go:23-29 | One pass, in any order of the maps, only enables entries; no claim is lost and no prefix gets a second claimant through it; every entry still disabled has a claimant in another group; the count is exactly the drop in disabled entries. |
| Router.EnabledClaims | agent/router/ipconflict.go:23-29 | Enabling a disabled service adds exactly its own claim, and enabling a peer none. |
| Router.TrailResolves | agent/router/ipconflict.go:23-29 | Over any order of visits, each of which enables an entry iff no other group claims its prefix at that moment: only enabling, no claim lost, no second claimant, everything visited and still disabled is justified, and the count is exact. |
| RouterMoves.VisitExact | agent/router/peermon/apply.go:47-60 | A visit enables its peer or service iff that is disabled and no service of another group is live for the prefix, counts it, and changes nothing else. |
| Router.NewClaim | agent/router/ipconflict.go:9-29 | A claim added for a prefix that nobody else claims is the only one for it. |
| Router.Router.ApplyPeers | agent/router/peermon/apply.go:11-45 | Commits the peers of a group: flags, removed peers, and the slot of each peer's own route for any answers of the search; nothing else of the kernel changes. Flags that ask for both are an addition, and the deletion is forgotten. |
| PeerRuns.PeerRouteCommitted | agent/router/peermon/apply.go:11-45 | An enabled peer to be added gets its own route, without gateway, if its address is free and the interface exists, and leaves a taken one as it is; one to be deleted loses the route on its interface; no other route changes. |
| PeerRuns.StepHolds | agent/router/peermon/apply.go:11-45 | Each undisturbed step keeps every peer that waits for no addition on its own route; disabled peers wait for one. |
| PeerRuns.CommitExact | agent/router/peermon/apply.go:22-28 | After a commit all peers that wait for no addition have their own routes iff each enabled peer to be added had a free address and an existing interface, or its route already. |
| PeerRuns.RunHolds | agent/router/peermon/apply.go:11-66 | In every state of every run of additions, deletions, flushes, commits, resolved conflicts and foreign routes where commits meet that, every enabled peer without a pending addition has exactly its own route, and after a commit every enabled peer. |
| PeerRuns.PeerLeaves | agent/router/peermon/apply.go:14-42 | A peer that leaves takes its route along iff it is enabled and its interface exists. |
| PeerRuns.Stranded | agent/router/peermon/peerlist/peerlist.go:26-34 | A committed peer that is added again over another interface ends settled there, with its route still over the old one. |
| PeerRuns.Orphaned | agent/router/peermon/apply.go:15-21 | A committed peer that an addition disables and that is deleted then leaves its route behind. |
| Router.Router.ApplyServices | agent/router/apply.go:53-56 | Commits the services of a group exactly as its monitor does, with their kernel routes. |
| Router.AppliedIsIdle | agent/router/servicemon/apply.go:20-59 | An enabled list has nothing left to do after a commit. |
| Router.Router.ApplyChanges | agent/router/apply.go:40-74 | Every group is committed, and exactly those left without peers are dropped; the slot of each destination, peer or service, that no other group writes is what the commit of the peers and then of the services of its group makes of it, and slots that no group writes are untouched. |
| RouterGroups.RouterEntries.ApplyChanges | agent/router/apply.go:40-74 | The real objects, each group with its peers, selector and service lists, end up exactly as the groups as values do, and the kernel with them; each group follows what its own selector answers, by exactly one step, from its peers after their commit. |
| RouterGroups.RouterGroupEntry.Apply | agent/router/apply.go:46-56 | One group of objects: peers, then one step of the selector from the peers that are left, then services. The report is of the connection answered. |
| RouterGroups.RouterGroupEntry.PingProcess | agent/router/reroute.go:9-29 | One group of objects: each settled peer gets its sample, then the selector makes one step from the new samples, and the services follow it. |
| RouterGroups.RouterGroupEntry.PeerAdd | agent/router/peers.go:10-19 | The peer objects of the group change as the values do, in their flags and in all they record. |
| RouterGroups.RouterGroupEntry.Flush | agent/router/actions.go:113-116 | The objects of a group are marked as the values are. |
| PeerMon.PeerMonitor.Apply | agent/router/peermon/apply.go:11-45 | The commit on the peer objects: own routes as in Router.ApplyPeers, flags reset, removed peers gone, and no sample of the others lost. |
| PeerMon.PeerMonitor.BestPath | agent/router/peermon/peermon.go:76-78 | Either selector makes exactly one step from some momentary best and public route of the peers as recorded, answers accordingly, and changes no peer. |
| PeerMon.SelectsOffer | agent/router/peermon/peermon.go:76-78 | Such an answer is the order to delete, or the address and connection of a current peer. |
| PeerMon.SelectsLeastLoss | agent/router/peermon/peermon.go:76-78 | When all peers are valid, and fully measured for the direct selector, it is a peer of least loss, or the order to delete iff even that loss reaches the threshold. |
| PeerMon.PeerMonitor.Flush | agent/router/peermon/apply.go:62-66 | Marks every peer for deletion. |
| PeerMon.KeptPeers | agent/router/peermon/apply.go:11-45 | The records that a commit leaves, seen as flags, are the committed peers of the router. |
| PeerMon.KeptExactly | agent/router/peermon/apply.go:14-42 | A commit drops exactly the peers to be deleted that are disabled or not to be added, resets the flags of enabled ones to be added, and changes no sample or setting. |
| RouterLeaks.SurvivesExactly | agent/router/peermon/apply.go:14-38 | A peer marked for deletion survives the commit iff it is enabled and marked for addition as well. |
| RouterLeaks.DeletionForgotten | agent/router/peers.go:10-36 | A peer that is added to the empty router and deleted again is still there after the commit. |
| RouterLeaks.KeptAgrees | agent/router/apply.go:40-74 | Where cache and kernel agree on a service before applyChanges, they do afterwards, if its group is kept; a dropped list has no route left. |
| RouterLeaks.LeftBehind | agent/router/apply.go:58-71 | When its group is dropped for want of peers, the route of a service that cache and kernel agree on stays behind iff the list before the commit is settled with an active entry, or wholly to be added, or mixed with a selected gateway not marked for deletion. |
| RouterLeaks.ActiveAfter | agent/router/servicemon/apply.go:29-59 | From agreement a commit leaves an active entry iff the list before is of that kind. |
| RouterLeaks.Leak | agent/router/apply.go:58-71 | Such a route exists: a settled service of a group whose only peer is to be deleted. |
| Router.CommittedApplied | agent/router/apply.go:40-74 | Each group that a commit keeps has its peers and its services committed, for any answers of the searches. |
| Router.NothingDisabled | agent/router/apply.go:40-74 | A commit disables nothing and leaves nothing to do, for services and for peers. |
| Router.NothingResolved | agent/router/apply.go:24-28 | A pass that resolves no conflict leaves nothing to do, if nothing was left before, for services and for peers. |
| Router.Router.ApplyBounded | agent/router/apply.go:19-32 | With any bound, the loop ends with nothing left to do for services and peers and every disabled entry justified, or has resolved at least as many conflicts as the bound: the number of disabled entries is its termination measure. |
| Router.Router.Apply | agent/router/apply.go:11-35 | With the bound of three rounds, fewer than three disabled entries are always settled completely. |
| Router.Router.ServiceAdd | agent/router/services.go:10-16 | Adds the service to its group, which is created when missing; a new list is disabled iff another group claims the prefix. |
| Router.Router.ServiceDel | agent/router/services.go:18-30 | Marks the service for deletion; an unknown group is not an error, an unknown prefix in a known group is. |
| RouterMoves.ServiceAddition | agent/router/services.go:10-16 | Only the services of the group change, by one addition, which is in conflict iff a service of another group is live for the prefix. |
| RouterMoves.ServiceDeletion | agent/router/services.go:18-30 | Only the services of a known group change, by one mark. |
| Router.Router.PeerAdd | agent/router/peers.go:10-19 | Adds the peer to its group, which is created when missing, marked for addition and no longer for deletion, and disabled if another group claims its address; a peer disabled before stays so. |
| Router.Router.PeerDel | agent/router/peers.go:21-36 | Marks the peer for deletion; an unknown group or peer is not an error and changes nothing. |
| Router.Router.Flush | agent/router/actions.go:109-118 | Marks all peers for deletion, drops disabled services and marks the others. |
| RouterMoves.PeerAddition | agent/router/peers.go:10-19 | Only one peer changes: it is on the interface of the path, to be added, not to be deleted, and disabled iff it was or a service of another group is live for its address. |
| RouterMoves.PeerDeletion | agent/router/peers.go:21-36 | Only a known peer changes, and only by its mark for deletion. |
| RouterMoves.FlushExact | agent/router/actions.go:109-118 | Every peer and every entry is marked for deletion, and exactly the disabled services are dropped. |
| PeerFlags.FlagBits | agent/router/peermon/peerlist/peerinfo.go:109-123 | Setting or clearing one flag of a peer leaves the other flags alone. |
| PeerFlags.PendingFlags | agent/router/peermon/peerlist/peerlist.go:29-41 | Adding asks for addition, takes back deletion, disables on conflict and never enables; deleting asks for deletion and changes nothing else. |
| Router.AppliedWasLive | agent/router/servicemon/apply.go:20-59 | A commit makes no claim. |
| RouterClaims.AddedLive | agent/router/servicemon/srvmon.go:61-74 | An enabled list claims its prefix as soon as something is added to it. |
| RouterClaims.ServiceAddedExclusive | agent/router/services.go:10-16 | When no prefix has two claimants, adding a service gives it a second one iff its group has an enabled list for a prefix that another group claims. |
| RouterClaims.StepClaims | agent/router/apply.go:40-74 | Deleting, flushing, rerouting, committing and changing peers make no claims. |
| RouterClaims.RunExclusive | agent/router/ipconflict.go:9-29 | In every state of every run without such additions no prefix is claimed by two groups. |
| RouterClaims.Collision | agent/router/services.go:10-16 | Such an addition is reachable by exact steps of the router: for any two groups, prefix, gateways and selected route, a run of seven operations from the empty router ends with two claimants. |
| PeerStats.PeerInfo.Add | agent/router/peermon/peerlist/peerinfo.go:36-43 | Writing at the index of the ring and advancing it makes the ring, read from the index, the last N samples padded with zeros. |
| PeerStats.PeerInfo.Latency | agent/router/peermon/peerlist/peerinfo.go:45-58 | The mean of the positive samples in that window, 0 when there is none. |
| PeerStats.PeerInfo.Loss | agent/router/peermon/peerlist/peerinfo.go:60-71 | The sum of the window over its size. |
| PeerStats.PeerInfo.StatsIncomplete | agent/router/peermon/peerlist/peerinfo.go:73-81 | Holds iff fewer than N samples of the window are positive. |
| PeerStats.PeerInfo.Valid | agent/router/peermon/peerlist/peerinfo.go:83-98 | Holds iff no flag is set and latencies or losses of the window add up to something positive. |
| PeerStats.RotationIrrelevant | agent/router/peermon/peerlist/peerinfo.go:45-81 | Where the ring starts does not matter to its sums and counts. |
| PeerStats.WindowPush | agent/router/peermon/peerlist/peerinfo.go:36-43 | A new sample pushes the oldest one out of the window. |
| PeerStats.RingPush | agent/router/peermon/peerlist/peerinfo.go:36-43 | Writing at the index and advancing drops the oldest element of the ring. |
| PeerStats.PeerInfo.Measured | agent/router/peermon/peerlist/peerinfo.go:45-81 | Average latencies are not negative, and positive for a full window. |
| PeerStats.PeerList.AddPeer | agent/router/peermon/peerlist/peerlist.go:19-34 | A new peer starts without samples, a known one keeps its object and samples; it takes over interface, key and connection, is marked for addition and no longer for deletion, and gets disabled if asked; the other peers do not change. |
| PeerStats.PeerList.DelPeer | agent/router/peermon/peerlist/peerlist.go:36-41 | Marks exactly the peer, if known. |
| PeerStats.PeerList.Delete | agent/router/peermon/peerlist/peerlist.go:55-59 | Removes exactly the listed peers. |
| PeerStats.PeerList.PingProcess | agent/router/peermon/peerlist/ping.go:5-24 | In any order of the map, each peer without flags whose address is in the results gets one sample of that host's latency and loss, and the others none. |
| PeerStats.PendingInvalid | agent/router/peermon/peerlist/peerlist.go:19-41 | A peer that is added, again or for the first time, or marked for deletion, is not valid for comparison. |
| PeerStats.SampleExact | agent/router/peermon/peerlist/ping.go:5-24 | The latency sample is the average time of the replies in milliseconds, 0 without replies, and the loss sample is lost requests over requests; a flagged or absent peer gets none. |
| PeerStats.AddedExact | agent/router/peermon/peerlist/peerlist.go:19-41 | A configured peer takes over interface, key and connection, keeps its samples, and has exactly the flags of an addition. |
| PeerStats.CompleteExactly | agent/router/peermon/peerlist/peerinfo.go:73-81 | The statistics of a peer are complete iff there were N samples and each of the last N has a positive latency. |
| PeerStats.StatsExact | agent/router/peermon/peerlist/peerinfo.go:45-102 | What the selectors see, for samples that are not negative: valid iff settled with latency or loss among the last N samples, public iff the interface name ends so, latency positive iff some sample has a reply, loss the mean of the window. |
| PeerStats.LatencyExact | agent/router/peermon/peerlist/peerinfo.go:45-58 | With a reply in each of the last N rounds the latency is the mean of these samples. |
| PeerStats.PeerList.BestRoute | agent/router/peermon/peerlist/best.go:14-38 | The fold over the map, in any order, returns a peer that no valid peer beats. |
| PathSelection.BestOfUnbeaten | agent/router/peermon/peerlist/best.go:14-38 | After any part of the map the candidate is not beaten by any valid peer seen. |
| PathSelection.BestRouteExact | agent/router/peermon/peerlist/best.go:14-38 | A peer can be the result for some order of the map iff no valid peer has less loss, or the same loss and a positive lower latency. |
| PathSelection.OrderIrrelevant | agent/router/peermon/peerlist/best.go:14-38 | When all peers are valid and measured, loss and latency of the result do not depend on the order. |
| PeerStats.PeerList.PublicRoute | agent/router/peermon/routeselector/dr/dr.go:112-117 | Some public peer, or none when there is none. |
| PeerStats.ThresholdsMultipliedOut | agent/router/peermon/routeselector/dr/dr.go:197-256 | The comparisons of latency ratios, division by zero included, are the multiplied-out ones of the model. |
| PeerStats.SpeedRouteSelector.BestPath | agent/router/peermon/routeselector/speed/speed.go:26-96 | The selector object makes one step of SpeedNext from some momentary best, holds a current peer whenever there is one, and answers with that route and the reason, or with its deletion at the loss threshold or without peers. |
| PathSelection.SpeedMinLoss | agent/router/peermon/routeselector/speed/speed.go:58-96 | When all peers are valid the held route has the least loss of all. |
| PathSelection.SpeedReasonTruthful | agent/router/peermon/routeselector/speed/speed.go:58-96 | The reason is a new route iff no peer was held, and carries the losses or latencies of both routes; it is no change iff the route stays, except iff a full window ties with itself under ineffective thresholds. |
| PathSelection.SpeedSwitchPays | agent/router/peermon/routeselector/speed/speed.go:58-96 | Leaving a valid route strictly lowers the loss, or keeps it and meets both latency thresholds. |
| PathSelection.SpeedSwitchesExactly | agent/router/peermon/routeselector/speed/speed.go:58-96 | The selector leaves a route for another momentary best iff that has less loss, or a full window and a latency that meets both thresholds. |
| PathSelection.SelectedExactly | agent/router/peermon/routeselector/speed/speed.go:40-55 | A held peer is answered, with its address and connection, unless the enabled threshold is a percentage its loss reaches; then the route is to be deleted. |
| PathSelection.SelectedNone | agent/router/peermon/routeselector/speed/speed.go:40-55 | What is no peer any more is not answered. |
| PathSelection.SpeedStays | agent/router/peermon/routeselector/speed/speed.go:58-96 | With constant, full statistics and a ratio above 1 or a difference above 0 only the first call can change the route. |
| PathSelection.SpeedFlapsExactly | agent/router/peermon/routeselector/speed/speed.go:58-96 | With constant, full statistics the selector can change the route twice iff neither threshold is effective and two peers tie for the best. |
| PathSelection.ThresholdsMatter | agent/router/peermon/routeselector/speed/speed.go:58-96 | Two peers of the same statistics replace each other under ineffective thresholds, and the held one is announced as a change to itself. |
| PeerStats.DirectRouteSelector.BestPath | agent/router/peermon/routeselector/dr/dr.go:63-265 | The selector object makes one step of DrNext from some momentary best and some public peer, and answers with the held route and the reason, or with its deletion; without peers it forgets its route and keeps the underdog. |
| DirectRoute.DrMinLoss | agent/router/peermon/routeselector/dr/dr.go:112-195 | The held route has the least loss whenever there is no public peer or the momentary best has a full window. |
| DirectRoute.DrMinLossExactly | agent/router/peermon/routeselector/dr/dr.go:112-195 | From every earlier state the held route has the least loss iff there is no public peer or the momentary best has a full window. |
| DirectRoute.DrCallExactly | agent/router/peermon/routeselector/dr/dr.go:156-264 | What one call on steady statistics decides: with loss on the public or held route the momentary best at once; without, the goal at once, unless the held route is near enough and the goal has not been the underdog for the limit, when it stays. |
| DirectRoute.DrPatient | agent/router/peermon/routeselector/dr/dr.go:138-150 | While the window of the momentary best fills, a held route stays, peer or not; without one the public route is taken if it has latency and no loss. |
| DirectRoute.DrReasonTruthful | agent/router/peermon/routeselector/dr/dr.go:96-265 | The reason is no change iff the held route stays, except exactly for the best route held without a public one, and for nothing to hold while the window fills, when the reason before is kept. |
| DirectRoute.DrReasonValues | agent/router/peermon/routeselector/dr/dr.go:151-264 | The values of the reason: the losses of the route left and of the one taken, which is not larger, or the latencies of the route left and of the momentary best, whichever route is taken. |
| DirectRoute.AlwaysNew | agent/router/peermon/routeselector/dr/dr.go:121-127 | Without a public route the momentary best is taken, and announced as new by every call. |
| DirectRoute.DrProgress | agent/router/peermon/routeselector/dr/dr.go:24-43 | Each call on steady statistics keeps the goal or comes at least one call nearer to it. |
| DirectRoute.DrConverges | agent/router/peermon/routeselector/dr/dr.go:156-264 | From any state steady statistics lead to the goal (the momentary best if it beats the public route by both thresholds or that has loss, else the public route), which is then kept: with one call if the public route has loss, else within limit + 3 calls, limit + 2 if the held route has no loss. |
| DirectRoute.DrHesitation | agent/router/peermon/routeselector/dr/dr.go:197-264 | The bound is attained: from a route near enough, with another underdog, exactly limit + 1 calls keep the route and the next one changes it. |
| DirectRoute.DrDetour | agent/router/peermon/routeselector/dr/dr.go:173-264 | The larger bound is attained too: with loss on the held route only, the selector may hold the momentary best for limit + 2 calls before it takes the public route. |
| DirectRoute.DetourArises | agent/router/peermon/routeselector/dr/dr.go:173-264 | Three peers are enough for that detour, with any limit. |
| HostRoutes.HostRouter.Add | agent/hostroute/hostroutes.go:42-57 | Counts every address up, creating entries that are to be installed. |
| HostRoutes.HostRouter.Del | agent/hostroute/hostroutes.go:59-85 | Counts every known address down, not below zero; fails iff some address is unknown. |
| HostRoutes.HostRouter.Flush | agent/hostroute/hostroutes.go:155-162 | Sets every count to zero and keeps the entries. |
| HostRoutes.HostRouter.Apply | agent/hostroute/hostroutes.go:87-151 | Installs what is used and not installed, removes what is installed and not used, touches nothing else, drops unused entries, for any answers of the search; succeeds iff every call did; without a default gateway it changes nothing and fails. |
| HostRoutes.SucceedsExactly | agent/hostroute/hostroutes.go:104-151 | A commit succeeds iff the interface exists, or nothing is to be changed, and no other route is in the way of what is to be added. |
| HostRoutes.HostRouter.Close | agent/hostroute/hostroutes.go:164-193 | Removes the installed routes if configured to, and always empties the cache. |
| HostRoutes.CountsTally | agent/hostroute/hostroutes.go:42-85 | The count of an address is additions minus deletions since the last Flush, never below zero, for fewer than 2^32 operations. |
| HostRoutes.CountsExactly | agent/hostroute/hostroutes.go:42-85 | One use more counts up, from 2^32 - 1 to 0; one less counts down to no less than 0; a flush counts nothing any more. |
| HostRoutes.CommitInstalls | agent/hostroute/hostroutes.go:104-151 | A commit leaves all its entries installed iff each destination to be added was free or had this very route; then the own routes in the kernel are those of the addresses in use, and those that were there before for addresses the commit does not touch. |
| HostRoutes.RunInstalled | agent/hostroute/hostroutes.go:42-162 | Throughout every run, from a restart with own routes in the kernel too, every entry not pending is installed, and after a commit the own routes are those of addresses with a positive tally and those left by an earlier instance for addresses nobody asked for. |
| HostRoutes.RunInStep | agent/hostroute/hostroutes.go:42-162 | In a run that starts without own routes the installed ones are exactly the entries not pending throughout, and after a commit exactly the addresses with a positive tally. |
| HostRoutes.Execute | agent/hostroute/hostroutes.go:42-162 | Each operation of the object is one step of the run over which this is stated; without a default gateway nothing is committed. |
| HostRoutes.RefreshTouchesDifference | agent/hostroute/hostroutes.go:42-162 | From a settled cache Flush, additions and a commit delete exactly old minus new, add exactly new minus old, and end settled on the new addresses. |
| WireguardDevices.DeviceCache.Device | agent/swireguard/cache.go:7-20 | The first cached device of a name, or none iff there is none. |
| WireguardDevices.DeviceCache.InterfaceCacheAdd | agent/swireguard/cache.go:22-33 | Appends a device of a new name; a known name keeps its device, which takes over keys, address and port. Names stay unique. |
| WireguardDevices.DeviceCache.InterfaceCacheDel | agent/swireguard/cache.go:35-55 | The first device with the same name, or the same key that is set, gives its place to the last one. |
| WireguardDevices.DeviceCache.RemoveInterface | agent/swireguard/interface.go:135-151 | Takes the first device recognised as the one of that name out of the cache, iff the name is known, and the interface out of the system. |
| WireguardDevices.DeviceCache.Close | agent/swireguard/wireguard.go:60-70 | The loop ranges over the slice that its calls shrink and reorder in place, and never leaves it; for every cache it asks for each device to be removed exactly once, in cache order. With unique names the cache ends empty iff no device is recognised as one that is named before it in the loop and lies, from the back, not further than that. |
| WireguardDevices.TurnTaken | agent/swireguard/cache.go:39-43 | One turn of that loop removes the device at hand from where it is by then, or a device of the back that is taken for it and so stays in the cache for good. |
| WireguardDevices.MistakenThree | agent/swireguard/cache.go:35-55 | Of three devices with names of their own one is mistaken iff the last two share a public or private key that is set. |
| WireguardPeers.PeerCache.Add | agent/swireguard/cache.go:57-75 | Appends the peer iff no cached peer has its key; keys stay unique. |
| WireguardPeers.PeerCache.Del | agent/swireguard/cache.go:77-95 | Removes exactly the peer with the key, although the loop goes on over the old slice after the removal: the last peer takes its place, and nothing else of the backing array is written. |
| WireguardPeers.ApplyPeers | agent/swireguard/peer.go:117-178 | Builds additions for the cached keys the device lacks, with their addresses and endpoints, then removals of the others it has, and collects the addresses of the removed. |
| WireguardPeers.ConfigExactly | agent/swireguard/peer.go:28-52 | The changes are exactly the additions of readable cached peers the device lacks, with all allowed addresses and with an endpoint iff address and port are valid, and the removals of device peers that are not cached. |
| WireguardPeers.SynchronisedExactly | agent/swireguard/peer.go:117-178 | Afterwards the keys of the device are exactly the cached ones iff every cached key it lacked is written in the form in which keys are shown. |
| WireguardPeers.SynchronisedOnce | agent/swireguard/peer.go:117-178 | A second call has nothing to configure iff every readable cached key is written in that form. |
| WireguardPeers.KeyFlaps | agent/swireguard/peer.go:126-166 | A key cached only in another form is set and deleted in turn, call by call. |
| WireguardPeers.FlapsArise | agent/swireguard/peer.go:126-166 | Such a key exists: a codec that reads two spellings and writes one. |
| WireguardPeers.FreedExactly | agent/swireguard/peer.go:150-170 | The returned addresses are exactly the valid allowed addresses of the peers the device loses. |
| PingData.PingStats.Send | pkg/multiping/pingdata/stats.go:63-67 | Counts a request and makes its number the outstanding one. |
| PingData.PingStats.Recv | pkg/multiping/pingdata/stats.go:69-82 | Counts the reply to the outstanding request, and its time; any other reply is a duplicate. |
| PingData.RunSound | pkg/multiping/pingdata/stats.go:19-82 | For every interleaving of Send, Recv and Reset without number 0: replies counted plus one outstanding never exceed requests; replies since Reset are counted once each, as such or as duplicates; the statistics are valid iff something was sent. |
| PingData.ReceivedSound | pkg/multiping/pingdata/stats.go:69-82 | A reply breaks this iff it carries number 0 while none is outstanding and every request is answered. |
| PingData.NothingLost | pkg/multiping/pingdata/stats.go:63-82 | When each request is answered before the next, every reply is counted, none is a duplicate, the loss is 0, and the last time is that of the last reply. |
| PingData.RecvNotMean | pkg/multiping/pingdata/stats.go:69-82 | The average is not the arithmetic mean: replies of 100 and 200 give 133. |
| PingData.RecvMeanExactly | pkg/multiping/pingdata/stats.go:69-82 | The average stored is the rounded mean of the old average over all replies so far and the new reply iff: with an average of 0, it is the first reply counted or is 0; otherwise its distance from the average has the same whole part divided by replies plus two as by replies plus one. |
| PingData.RunBetween | pkg/multiping/pingdata/stats.go:69-82 | The average lies between any bounds of the replies' times, although it is not their arithmetic mean. |
| PingData.Stats.Loss | pkg/multiping/pingdata/stats.go:33-38 | Loss is between 0 and 1. |
| PingData.MergedSound | pkg/multiping/pingdata/pingdata.go:37-52 | Merging keeps replies within requests. |
| PingData.MergedBetween | pkg/multiping/pingdata/pingdata.go:37-52 | Merging keeps the average within the bounds of the replies' times. |
| PingData.MergedWeight | pkg/multiping/pingdata/pingdata.go:40-43 | One merge rounds the weighted mean down by less than one unit. |
| PingData.MergedError | pkg/multiping/pingdata/pingdata.go:37-52 | After n merges counters are exact sums, and average times replies is below the true weighted sum by at least 0 and at most n (rx - 1). |
| PingData.MergedLast | pkg/multiping/pingdata/pingdata.go:37-52 | After merging the last time is that of the last round, and the duplicates are those of the first. |
| PingData.PingData.Add | pkg/multiping/pingdata/pingdata.go:23-27 | Gives every host new, cleared statistics, replacing those of a known one. |
| PingData.PingData.Del | pkg/multiping/pingdata/pingdata.go:30-34 | Removes exactly the hosts. |
| PingData.PingData.Append | pkg/multiping/pingdata/pingdata.go:37-52 | Merges host by host in any order of the map; the statistics object of a new host is taken over itself, and the other data is not changed. |
| PingData.PingData.Reset | pkg/multiping/pingdata/pingdata.go:62-66 | Clears all statistics and keeps the hosts. |
| PeerWatch.Watcher.PingProcess | agent/peerwatch/action.go:13-31 | Merges a round into the accumulated statistics, then drops the hosts that took no part. |
| PeerWatch.Watcher.MonitorPeers | agent/peerwatch/action.go:33-64 | Pings exactly the first valid addresses of all peers of all devices, with fresh statistics and whatever the traffic, and processes the results. |
| PeerWatch.Watcher.Message2Controller | agent/peerwatch/action.go:66-149 | Once enough rounds have passed it sends the message that matches the peers of each device with the accumulated statistics, and only then clears them. |
| PeerWatch.ReportExact | agent/peerwatch/action.go:66-149 | When the hosts of a device took part in the last round, its message lists exactly its peers with a host, in order; the loss of each is requests minus replies over requests of the whole report period, and total loss without requests; the latency is the mean over all replies of the period, below it by less than one nanosecond for each merge, and 0 without replies. |
| PeerWatch.MessageExact | agent/peerwatch/action.go:79-142 | The message has one section for each device, in order, with its name and key, and in it exactly the entries of its peers with a host, in order, each as ReportExact says. |
| PeerWatch.ReachableExactly | agent/peerwatch/action.go:88-96 | The peers with a host are those whose first allowed address is valid. |
| PeerWatch.TargetsExactly | agent/peerwatch/action.go:36-52 | The hosts pinged are exactly the first allowed addresses of all peers, where valid. |
| PeerWatch.Watcher.Execute | agent/peerwatch/watcher.go:40-56 | One tick adds a round, and a report when it is due, to the history; the accumulated statistics are always those of the history. What is sent has a section for each device with an entry for each of its reachable peers, with loss and latency of the whole period. |
| PeerWatch.PingedFine | agent/peerwatch/action.go:33-64 | The statistics of every round are sound and within the bounds of the replies' times. |
| PeerWatch.WatchedAccounts | agent/peerwatch/action.go:13-31 | After any history the hosts are those of the last round; requests and replies of a host are exact sums over the rounds since the later of the last report and its last reappearance; the average is within the bounds of all replies and below the true mean by less than one unit for each round after the first. |
| PeerWatch.PeriodBounded | agent/peerwatch/action.go:66-75 | These are at most the rounds since the last report. |

## Left out

- Services the agent talks to: netlink, wgctrl, iptables, ICMP sockets, the controller connection, docker, kubernetes, blockchain, prometheus, logging, environment and JSON parsing. Of the kernel, the four route calls are kept.
- Kernel errors other than a missing interface, interfaces that vanish during a run, and several routes to one prefix.
- Invalid prefixes as map keys; a missing selected address is an option.
- Locks and goroutines: operations are modelled one at a time, as the locks of the router order them.
- Integer widths, except the 32-bit counters of the host routes; wrap-around of ping sequence numbers.
- Rounding of `float32`.
- Texts of messages.
- RouterGroups.RouterEntries.ApplyChanges: statuses and reports are collected, but stated group by group only (`RouterGroupEntry.Apply`).
- Router.Router.ResolveIpConflict: runs on groups as values; the objects of `RouterGroups.dfy` have no counterpart, as the pass only clears flags.
- Router.Router.ApplyPeers: the returned error is always nil in the code and has no counterpart.
- Router.Router.ServiceAdd: the filter for default routes and the split into peer and services (`agent/router/actions.go:12-58`) are not modelled; what is modelled are the operations it calls.
- PeerStats.DirectRouteSelector.BestPath: which public peer is found when there are several is left open, as the iteration leaves it open; that earlier answers share the object of the reason, and so see it change, is not modelled.
- PeerStats.PeerList.constructor: a window of zero samples, with which the first sample is an index out of range.
- WireguardDevices.DeviceCache.Close: when the cache ends empty is stated for unique names, which `InterfaceCacheAdd` keeps.
- Creating missing interfaces and the rest of `Wireguard.Apply`, `CreateInterface`, `CheckInterface`, and traffic statistics.
- WireguardPeers.ApplyPeers: the writing and reading of keys are parameters, of which only that a key shown is read back is used; the keep-alive of a peer is a constant and not modelled.
- PeerWatch.Watcher.Message2Controller: traffic counters and the keep-alive constant of an entry are left out.
- `controller/saas`, message formatting, port search, byte conversions.
