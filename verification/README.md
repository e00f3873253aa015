# AmberGate verification

A Dafny model of the parts of AmberGate that hold state or transform configuration, with proofs of what they keep.
AmberGate is a control plane for an nginx reverse proxy: it discovers containers on its own host and through agents,
rebuilds the routes that containers asked for, reserves loopback ports for tunnels to agents, compiles the
configuration and applies it, and it accounts for traffic, logins and connections.

`dafny verify dfyconfig.toml` checks everything.

## Files

- `Sets`, `Text`, `Config`, `Validator`: sizes of sets, strings compared by code point, the structured configuration, and `validate`.
- `Endpoints`, `Labels`, `Ownership`, `Shapes`, `Records`, `Canonical`, `Idempotence`, `Reconciliation`, `Outcome`, `Reconciler`:
  label reconciliation. `Labels` says what happens to each route on its own; `Reconciler` is the loop over entries,
  hosts and routes, proved against it; the files between hold the theorems, and `Outcome` says what the result is in terms
  of the configuration and the entries alone.
- `Placeholders`, `Freshness`: the substitution of reserved ports for placeholder addresses, that it commutes with
  reconciliation, and when ports are fresh for that.
- `PortTable`, `Reservations`, `Storage`, `Transactions`: the port table in memory and in its file over whole runs, port
  reservations, revisions and the active link, and the two transactions that nest them. Every write and probe answers as
  the environment decides, including a write that takes effect and still raises.
- `Scan`: a label scan end to end, from the entries to the applied configuration.
- `Scenarios`: runs of these classes in which something is lost, left behind or stretched.
- `Streams`, `StreamHub`: the tunnel stream protocol as interleaved steps with an invariant over all runs, and the hub's
  methods, which are runs of those steps.
- `Leases`, `Registry`, `Forwarding`, `Routing`: which targets the hub lets through and until when, how the agent resolves
  them, the registry of agents over the hub, the forward that joins it to the stream protocol, and the entries that agents
  contribute to reconciliation.
- `Frames`, `Tunnel`, `Torn`: the WebSocket framing (sections 5.2, 5.3 and 5.5 of RFC 6455), the receive loop and the two
  loops of the byte bridge, writes that stop part-way, and the bridge end to end.
- `Counters`, `Metrics`: traffic counters, the percentile, and the fifteen-minute window.
- `Login`, `Admission`: the login throttle with its sessions, the connection counters, and the client behind proxies.
- `Locations`, `Rendering`, `Rewrite`: the compiled location table, the configuration around it, and redirect and cookie
  rewriting.

Code that works by loops and assignments is a method or a class whose contract equates its result with a function of
what it started from; the properties are proved about those functions and as invariants. What such a function is, is
stated a second time without it, in the contract or in a lemma whose name ends in `Exactly`. Digests, target tokens and
placeholder addresses are injective, so they are modelled as constructors. Wall clock and monotonic clock are one
non-decreasing clock.

## Where the code differs from what one might expect

- A redirect to a fragment right behind the prefix, such as `/api#top` on route `/api`, is prefixed a second time, although
  `docs/response-rewriting.md` keeps already-prefixed paths (`Rewrite.FragmentPrefixedTwice`; `Rewrite.UnchangedExactly`
  is the exact condition).
- A rewritten redirect comes back to its own route exactly if no deeper route takes the rewritten path
  (`Rewrite.RedirectComesBack`, `Rewrite.DeeperRouteTakes`).
- A rollback whose write replaces the file of the port table and then fails leaves memory with mappings that the file
  lacks. A later apply that finds such a key mapped writes no table, so a restart can lose a mapping that the active
  configuration uses (`Scenarios.MappingLost`). That write is the only way: `PortTable.RunSavedExactly` is the exact
  condition over whole runs, and until a later write the two stay apart.
- A label target can be forwarded to after its own lease has ended, because label and manual targets share one expiry
  (`Leases.LabelOutlivesItsLease`, `Scenarios.StretchedLease`; `Leases.LabelLeaseExact` is the exact condition). The bound
  on the last report holds always (`Registry.Agents.Passes`).
- After a confirmed activation, a failure to record it or to clean up raises an error other than an apply error. The active
  link then stays on the candidate while a label apply restores the draft (`Scenarios.ActiveAhead`; `Transactions.Install`
  and `Transactions.ApplyLabels` state exactly when the active link moves). Reservations are kept for both, because both
  are still referenced.
- A write to the tunnel that stops part-way does not by itself keep another thread from writing the next frame before the
  connection is closed. Whether that can make the other end bridge bytes that were never read depends on the sender's
  role, the torn frame and the place of the cut; `Torn.TearExactly` is the exact condition and `Torn.TornRun` a run.
- One unusable label in an agent's inventory keeps its label lease from being renewed (`Leases.RenewalHistory`). Until it is,
  a token of the hub may lead nowhere, but never to another container (`Registry.Resolves`).

## Model

| member | source | states |
|---|---|---|
| `Reconciler.Reconcile` | ambergate/labels.py:118-181 | the nested loops succeed exactly when every route can absorb the entries aimed at it and the result validates, and then return the rebuilt configuration, in which missing routes that labels name are created and existing ones updated; a refusal is `Invalid` exactly when only validation failed, and any other exactly when an existing route does not take its entries or those for one missing route disagree |
| `Reconciler.JoinGroup` | ambergate/labels.py:140-172 | a group entry is admitted to every route of its group, or fails |
| `Reconciler.Address` | ambergate/labels.py:142-172 | an addressed entry creates what is missing and is admitted to that one route, which then is managed and has its options and target; it is refused only by a route that was there and does not accept it |
| `Reconciler.Meet` | ambergate/labels.py:157-172 | a route that an entry names refuses it, or has its options and target afterwards |
| `Outcome.MissingAccept` | ambergate/labels.py:142-172 | labels for missing routes alone are absorbed exactly if every two for one host and path agree on options and on the target at an endpoint |
| `Outcome.AbsorbableExactly` | ambergate/labels.py:118-172 | when entries are absorbed, said of the routes and entries alone, for configurations whose discovered targets have distinct endpoints: existing routes take what reaches them, and entries that meet agree |
| `Outcome.CreatedRoute` | ambergate/labels.py:84-86 | whatever route is new was missing, and is what the labels naming it ask for: managed, in no group, no manual targets, their path and options, discovering exactly their targets |
| `Outcome.CreatedForAll` | ambergate/labels.py:148-172 | every label that names a route finds it in the result, with its options and its target |
| `Outcome.ExistingRoute` | ambergate/labels.py:118-181 | an existing route keeps place, identity, name, path, manual targets, rewrite rules, group and whether it is managed, and its options unless a label names it; it comes back equal without a Docker part; its discovered targets are what frozen sources held and what entries that reach it report |
| `Reconciler.Locate` | ambergate/labels.py:148-156 | the addressed route is found or created, with nothing else changed |
| `Reconciler.PrepareRoutes` | ambergate/labels.py:123-137 | before the entries arrive each Docker route holds what its frozen sources own and nothing else |
| `Reconciler.WriteBack` | ambergate/labels.py:173-180 | targets and sources are written back sorted, in the compact form only while everything is local |
| `Reconciler.FailureStays` | ambergate/labels.py:138-172 | a failed entry is not undone by later entries |
| `Reconciliation.ReconcileCanonical` | ambergate/labels.py:118-181 | permuting or repeating the entries changes neither success nor any host or route, and existing routes keep their places |
| `Reconciliation.ReconcileIdempotent` | ambergate/labels.py:118-181 | reconciling the result with the same entries and frozen sources returns exactly the same configuration |
| `Reconciliation.OwnershipExact` | ambergate/labels.py:123-180 | a source owns exactly what it owned while frozen and what entries report for it, outside the manual targets; discovered targets are the union of the owned ones and disjoint from the manual ones |
| `Reconciliation.ReadBack` | ambergate/labels.py:126-180 | reading the written form back, compact or not, recovers who owns what |
| `Reconciliation.CoverageHolds` | ambergate/config.py:189-204 | the coverage clauses of `validate` cannot reject what was rebuilt |
| `Reconciliation.ValidView` | ambergate/config.py:79-235 | validity does not depend on the order of hosts and routes |
| `Ownership.FoldSucceeds` | ambergate/labels.py:138-172 | entries are absorbed exactly when each suits the route and every two that meet agree on options and on the target at an endpoint |
| `Ownership.FoldOptions` | ambergate/labels.py:143-159 | after the entries a managed route has the options every addressed entry asked for; a route only groups reach keeps its own |
| `Ownership.FoldTargets` | ambergate/labels.py:161-168 | the discovered targets afterwards are the kept ones and those of the entries that aimed at the route, outside the manual ones |
| `Ownership.FoldMembers` | ambergate/labels.py:169-172 | the members recorded for a source are the kept ones and the targets entries reported for it |
| `Shapes.ShapeLookup` | ambergate/labels.py:148-156 | a missing route is created exactly when an entry names it |
| `Records.RecordedOwn` | ambergate/config.py:189-204 | the recorded sources of a valid route own exactly its discovered targets |
| `Records.SortSourcesCanonical` | ambergate/labels.py:177-180 | the written sources are determined by who owns what, not by the order of recording |
| `Canonical.TwinFinish` | ambergate/labels.py:138-180 | a route is written back alike for the same entries in another order |
| `Idempotence.AgainFinish` | ambergate/labels.py:123-180 | writing a route back a second time changes nothing |
| `Endpoints.SortCanonical` | ambergate/labels.py:176-176 | sorting by endpoint gives one list for one set of targets with distinct endpoints |
| `Endpoints.SortSorted` | ambergate/labels.py:176-176 | the sort is stable: a sorted list stays as it is, ties included |
| `Endpoints.SortOrder` | ambergate/labels.py:176-176 | the order of a sorted list: by address as strings compare, then by port |
| `Records.SourcesOrder` | ambergate/labels.py:179-180 | the written sources stand in the order of their names |
| `Text.CompareExactly` | ambergate/labels.py:176-180 | the order of strings: a proper prefix, or the smaller character where they first differ |
| `Validator.Validate` | ambergate/config.py:79-235 | the validating loops accept exactly the valid configurations |
| `Validator.ValidateHost` | ambergate/config.py:105-235 | a host passes exactly if it is valid and its identities are new, and its identities join the set |
| `Validator.CheckId` | ambergate/config.py:238-243 | an identity passes exactly if it is well-formed and new |
| `Placeholders.MaterializeCommutes` | ambergate/agents.py:361-420 | reconciling placeholders and then substituting the ports equals, up to order inside lists, reconciling the substituted entries; both succeed or fail together |
| `Placeholders.NoPlaceholderSurvives` | ambergate/agents.py:399-416 | once every occurring key has a port, no placeholder is left anywhere |
| `Reservations.TunnelHub.Open` | ambergate/tunnel_hub.py:19-66 | startup succeeds exactly if the saved table has at most 1024 mappings on ports from 1024 to 65535, the quota lies between 1 and 512, the pruned table is written if anything goes, and what stays is one-to-one and free; exactly the referenced or selected mappings stay |
| `Reservations.TunnelHub.CheckCapacity` | ambergate/tunnel_hub.py:133-142 | a batch passes exactly if it brings nothing new or keeps the total within 1024, and every agent that gains a key within its quota |
| `Reservations.TunnelHub.BindAll` | ambergate/tunnel_hub.py:68-80 | a batch is bound whole or not at all |
| `Reservations.TunnelHub.Begin` | ambergate/tunnel_hub.py:91-111 | a reservation succeeds exactly if quota, binding and the ports file allow it; listeners and ports keep the same one-to-one mapping; a refused batch changes nothing |
| `Reservations.ReservedExactly` | ambergate/tunnel_hub.py:91-142 | when a reservation goes through, written out: total, quota per agent, a bindable port for every new key, and a write that does not fail |
| `Reservations.TunnelHub.Acquire` | ambergate/tunnel_hub.py:98-111 | a batch within the quota is bound whole, then recorded; either failure leaves table and listeners as they were |
| `Reservations.GrownTable` | ambergate/tunnel_hub.py:91-111 | a batch within the quota leaves a table that is one-to-one, within its capacity and complete |
| `Reservations.TunnelHub.Record` | ambergate/tunnel_hub.py:100-110 | the table is adopted after its file was written, otherwise the new listeners are closed again |
| `Reservations.TunnelHub.Abort` | ambergate/tunnel_hub.py:114-131 | leaving a failed reservation drops only new mappings that nothing refers to, none at all when that is unknown, and never touches earlier ones; the table in memory and in its file end as `PortTable.Aborted` says, also when the write replaced the file and then failed |
| `Reservations.TunnelHub.Shrink` | ambergate/tunnel_hub.py:121-127 | memory and listeners follow the smaller table only if its write did not fail, the file if it was replaced |
| `Reservations.HeldStaysAllowed` | ambergate/tunnel_hub.py:133-142 | keys already mapped, even above a lowered quota, are never refused |
| `PortTable.AbortedPorts` | ambergate/tunnel_hub.py:114-131 | a rollback renumbers nothing, keeps every earlier mapping and every new one that is referred to, and drops the others unless its write fails |
| `PortTable.AbortedFile` | ambergate/tunnel_hub.py:114-131 | the file after a rollback: the mappings that stay, if any goes and the write replaced it, otherwise the old one |
| `PortTable.RunSavedExactly` | ambergate/tunnel_hub.py:91-131 | over every run of reservations, rollbacks and restarts, all mappings in use are in the file exactly if the last write of the file was not a rollback that replaced it and then failed |
| `PortTable.RestartKeeps` | ambergate/tunnel_hub.py:45-66 | a restart keeps a referenced or selected mapping exactly if the file has it |
| `PortTable.RestartAfterRun` | ambergate/tunnel_hub.py:45-131 | over whole runs a restart loses no referenced or selected mapping, unless the last write was such a rollback; then it loses one in use |
| `PortTable.AbortKeepsReferenced` | ambergate/tunnel_hub.py:114-131 | what is referenced when the rollback looks survives it, in memory and in the file, whatever becomes of its write |
| `Storage.Store.ReferencedAgentPorts` | ambergate/storage.py:91-106 | exactly the loopback ports that the draft or any revision mentions |
| `Storage.Store.Prepare` | ambergate/storage.py:108-117 | a candidate is complete exactly if it validates and every write succeeds; other revisions stay |
| `Storage.Store.Activate` | ambergate/storage.py:129-136 | the active link moves exactly if the replacement happened |
| `Storage.Store.Commit` | ambergate/storage.py:243-249 | check, activation, reload and confirmation must all succeed |
| `Storage.Store.RollBack` | ambergate/storage.py:250-259 | an apply error restores the active link and removes the candidate; the active link never names what was removed |
| `Storage.Store.MarkApplied` | ambergate/storage.py:203-208 | recording the application changes only that |
| `Storage.Store.Cleanup` | ambergate/storage.py:286-289 | exactly the doomed revisions go, one by one, never the active one |
| `Storage.Store.RemoveFrom` | ambergate/storage.py:286-289 | the deletions succeed exactly if each removal does; whatever goes or is damaged lies behind the newest twenty |
| `Storage.Store.ApplyConfig` | ambergate/storage.py:237-263 | it returns normally exactly if every step succeeds, written out, and then the active revision holds the validated, confirmed candidate and of the old revisions exactly those behind the newest twenty are gone; an apply error comes exactly when the candidate was prepared, then failed, and everything was put back; the active link ends on the candidate exactly under the stated condition |
| `Storage.PlaceOrdered` | ambergate/storage.py:284-284 | entries stay sorted by age |
| `Storage.HistoryOrder` | ambergate/storage.py:276-284 | the history lists exactly the applied and the active revisions, newest first |
| `Storage.HistoryExactly` | ambergate/storage.py:276-284 | the history written out: which revisions, the newest first, and those of one age in the order of the listing |
| `Storage.PortsExactly` | ambergate/storage.py:91-106 | which ports a configuration refers to: those of loopback targets, manual, discovered or recorded |
| `Storage.CleanupKeepsNewest` | ambergate/storage.py:286-289 | of the history exactly the twenty newest entries and the active one stay |
| `Transactions.ApplyLabels` | ambergate/labels.py:258-271 | with a failure possible at every point: when an apply is refused, applied or fails, exactly; where active link and draft end, exactly: after a failure the draft is the old one if the new one was never written or the restore took effect behind a write that did not fail, and otherwise the new one; after a rollback a mapping is there exactly if it was before, or was reserved and is referred to, or the references or the write failed |
| `Transactions.Proceed` | ambergate/labels.py:260-271 | the same behind the reservation |
| `Transactions.Undo` | ambergate/labels.py:260-261 | the rollback consults the draft and every revision as they are then |
| `Transactions.SettledExactly` | ambergate/tunnel_hub.py:114-131 | the rollback, said of each mapping |
| `Transactions.NewJoin` | ambergate/agents.py:253-253 | new selections are collected in order |
| `Transactions.Install` | ambergate/labels.py:262-270 | it succeeds exactly if the draft is written and the candidate is active or goes through; the active link moves exactly when applying moved it, also on failure; a failure leaves the old draft exactly if the new one was never written, or the restore took effect after a successful write, or they are equal |
| `Transactions.Selections.Select` | ambergate/agents.py:251-268 | a selection is refused, fails or succeeds exactly as limit, quota, binding and writes say; a failed one drops only mappings absent from the manual file, in memory and in the table's file; a success records every selected key and answers with its port |
| `Transactions.Selections.Enter` | ambergate/agents.py:253-260 | the limit of 1024 selections and the reservation; a refusal changes nothing |
| `Transactions.Selections.Complete` | ambergate/agents.py:260-267 | the rollback consults the file that the failed write may already have replaced |
| `Transactions.ResolvedPorts` | ambergate/agents.py:399-416 | a substituted configuration refers to the port of every key it had a placeholder for |
| `Scenarios.MappingLost` | ambergate/tunnel_hub.py:114-131 | a run in which a mapping that the active configuration uses is lost by a restart |
| `Scenarios.ActiveAhead` | ambergate/labels.py:262-270 | a run in which a failed apply leaves the active link on the candidate, restores the draft and keeps the mapping |
| `Freshness.UnusedFresh` | ambergate/agents.py:388-420 | ports that neither configuration nor entries mention are fresh for every route |
| `Freshness.RebuiltPending` | ambergate/agents.py:388-412 | every placeholder in a rebuilt configuration came with an entry |
| `Scan.ScanCommutes` | ambergate/labels.py:228-271 | reconciling on placeholders and then substituting the reserved ports equals, up to order inside lists, reconciling the entries that `routing` returns on the grown table; both succeed |
| `Scan.ScanPending` | ambergate/agents.py:388-412 | the placeholders of what a scan rebuilt are known to materialize at the same time and have no port yet |
| `Scan.Scan` | ambergate/labels.py:219-276 | a scan stops exactly when a reconciliation fails; after an applied scan, and when there was nothing to apply, active configuration and draft equal, up to order inside lists, what reconciling them on the current entries gives |
| `Streams.RunSafe` | ambergate/tunnel_hub.py:158-259 | in every interleaving slots in use equal live forwards, at most 128, at most 32 requests per agent, and every control connection and unfinished request belongs to an enabled agent with its current token, except those a running revocation is about to cut |
| `Streams.InvKept` | ambergate/tunnel_hub.py:158-295 | every step of the protocol, stopping included, keeps its tables, its bounds and the identity of connections |
| `Streams.RequestFrame` | ambergate/tunnel_hub.py:194-231 | no step loses a request, moves it to another agent, unclaims it, revives it, or gives a finished one a websocket |
| `Streams.RunFrame` | ambergate/tunnel_hub.py:194-231 | the same over whole runs |
| `Streams.ClaimedOnce` | ambergate/tunnel_hub.py:194-201 | a request is claimed at most once, by the agent of its key |
| `Streams.FinishedOnce` | ambergate/tunnel_hub.py:223-231 | a request is finished at most once |
| `Streams.RevocationComplete` | ambergate/agents.py:218-223 | when a deletion, rotation or disabling lets go of the registry, the agent has no connection and no unfinished request |
| `Streams.ReappearsByAttach` | ambergate/server.py:161-194 | a control connection reappears only through an attach authenticated with the token current at that moment |
| `Streams.StoppedForGood` | ambergate/tunnel_hub.py:170-176 | once the hub stops no connection comes up any more, and a severed one stays away |
| `Streams.AppearsExactly` | ambergate/tunnel_hub.py:233-247 | a request that was not there appears exactly in a registration by a starting forward whose agent is connected on an open socket, with a leased target and fewer than 32 registered requests of that agent; it appears for that agent, with that connection's hash, unclaimed, unfinished, without a websocket |
| `Streams.AdmittedOnce` | ambergate/tunnel_hub.py:233-247 | over whole runs every request was registered under exactly those conditions |
| `StreamHub.TunnelStreams.Accept` | ambergate/tunnel_hub.py:266-283 | a connection takes a slot exactly if one is free |
| `StreamHub.TunnelStreams.Register` | ambergate/tunnel_hub.py:233-247 | a request is registered exactly if the agent is connected on an open socket, the target leased and fewer than 32 requests of that agent are registered; the new request, and everything else unchanged |
| `Forwarding.Forward` | ambergate/tunnel_hub.py:233-247 | a forward becomes a request exactly if the agent is connected on an open socket, the key is among its targets, their lease has not ended, and fewer than 32 requests are registered; so only for a mapped target, before the last report plus its timeout |
| `StreamHub.TunnelStreams.Leave` | ambergate/tunnel_hub.py:253-259 | a forward ends by finishing its request, forgetting it and giving its slot back |
| `StreamHub.TunnelStreams.Claim` | ambergate/tunnel_hub.py:194-201 | a claim succeeds exactly for a registered, unclaimed, unfinished request of the agent |
| `StreamHub.TunnelStreams.Data` | ambergate/tunnel_hub.py:203-209 | a finished request closes the arriving websocket, any other adopts it |
| `StreamHub.TunnelStreams.Finish` | ambergate/tunnel_hub.py:223-231 | only the first call closes anything |
| `StreamHub.TunnelStreams.Disconnect` | ambergate/tunnel_hub.py:158-168 | the agent is cut off and all its registered requests finished, unless the connection was already replaced |
| `StreamHub.TunnelStreams.Attach` | ambergate/tunnel_hub.py:170-176 | an attach first cuts off the old connection; while stopping, the new one is closed |
| `StreamHub.TunnelStreams.Stop` | ambergate/tunnel_hub.py:285-290 | stopping severs every connection and finishes its requests |
| `StreamHub.SweepAnyOrder` | ambergate/tunnel_hub.py:167-168 | the order of finishing does not matter |
| `StreamHub.DisconnectCutsOff` | ambergate/tunnel_hub.py:158-168 | disconnecting finishes exactly the agent's unfinished requests, closes their websockets, and touches nothing else |
| `StreamHub.DisconnectBySteps` | ambergate/tunnel_hub.py:158-168 | the method is the protocol's revocation steps |
| `StreamHub.LossBySteps` | ambergate/tunnel_hub.py:158-168 | disconnecting a given connection is its loss and the finishing of its requests, or nothing if it was replaced |
| `StreamHub.AttachBySteps` | ambergate/tunnel_hub.py:170-176 | an attach is the protocol's attaching steps, while stopping too |
| `StreamHub.LeaveBySteps` | ambergate/tunnel_hub.py:253-259 | the method is the protocol's three closing steps |
| `StreamHub.SweepBySteps` | ambergate/tunnel_hub.py:167-168 | the loop is a run of finish steps |
| `Leases.AgentRoutes` | ambergate/agents.py:112-128 | exactly the usable labels of serving containers become routes, and an error is reported exactly if some label is unusable |
| `Leases.RoutesExactly` | ambergate/agents.py:112-128 | which routes an inventory has, written out |
| `Leases.RoutesJoin` | ambergate/agents.py:112-128 | containers contribute in turn |
| `Leases.LabelsJoin` | ambergate/agents.py:112-128 | and their labels in turn |
| `Leases.OneContainer` | ambergate/agents.py:112-128 | the routes of one container and of one label |
| `Leases.FaultyExactly` | ambergate/agents.py:112-128 | when a label had to be rejected |
| `Leases.AddressesExactly` | ambergate/agent.py:63-76 | which containers the agent resolves by identity, and to what |
| `Leases.RouteOrigin` | ambergate/agents.py:112-128 | every route names a serving container, its first endpoint and its token |
| `Leases.AgentView.Collect` | ambergate/agent.py:63-76 | the agent's tables after an inventory |
| `Leases.ResolveAlike` | ambergate/agents.py:270-296 | for one inventory, whatever the hub sends for a key, the agent maps it to the first endpoint of the container the key names, and the key's port |
| `Leases.StaleToken` | ambergate/agent.py:63-84 | the agent knows a label token exactly if one of its serving containers has that identity and a usable label for the port, and maps it to that container |
| `Leases.ResolveStale` | ambergate/agents.py:270-296 | when the routes come from an older inventory, a token leads to the container it was made for, or nowhere |
| `Registry.Resolves` | ambergate/agents.py:270-334 | in every state of the registry, against the tables of the agent's last report: if that report renewed the label lease every token resolves to the container its key names; otherwise it leads there or nowhere |
| `Registry.Agents.FindDestinations` | ambergate/agents.py:270-294 | the two loops, and which keys become targets, written out: of an enabled agent, mapped, and in a live label route or selected by hand under a live manual lease with a reachable container of that name |
| `Leases.TargetExactly` | ambergate/agents.py:270-294 | a key is a target exactly under those conditions; a selected one leads to that container by name, any other to the token of its last route |
| `Leases.ExpiryExactly` | ambergate/agents.py:290-296 | when the targets of a refresh expire: the later of the two running leases, never before the refresh |
| `Registry.Agents.Refresh` | ambergate/agents.py:270-296 | targets and expiry after a refresh; every lease stays within its bound |
| `Registry.Agents.Accept` | ambergate/agents.py:298-334 | a report is refused within a second of the last one; if its file cannot be written the old report stays but the attempt counts; otherwise its state is recorded and the targets refreshed from it |
| `Registry.Agents.Reserve` | ambergate/tunnel_hub.py:91-111 | a reservation keeps every lease |
| `Registry.Agents.Release` | ambergate/tunnel_hub.py:114-131 | a rollback drops mappings together with their targets, and keeps every lease |
| `Leases.RenewalExact` | ambergate/agents.py:298-334 | every accepted report renews the manual lease; the label lease is renewed only by a complete inventory with usable labels over a live tunnel, for exactly the routes that have a port or that the quota admits |
| `Leases.RenewsExactly` | ambergate/agents.py:304-316 | which inventories renew the label lease |
| `Leases.RenewalHistory` | ambergate/agents.py:298-334 | over any run of reports the label lease counts from the last one that renewed it, with the routes of that report's inventory |
| `Registry.Agents.Receive` | ambergate/agents.py:304-330 | the state a report leaves, branch by branch |
| `Registry.Agents.Revoke` | ambergate/agents.py:218-223 | a revoked agent has no targets, although their expiry becomes infinite |
| `Registry.Agents.Passes` | ambergate/tunnel_hub.py:233-244 | a forward passes only before the last accepted report plus the timeout of the last refresh, and only to a mapped target of that agent |
| `Registry.Agents.Leased` | ambergate/tunnel_hub.py:240-244 | the same without the connection: the key is a target and its lease has not ended |
| `Leases.LabelLeaseExact` | ambergate/agents.py:270-296 | a label target stops with its own lease exactly if no later manual lease stretches the shared expiry |
| `Leases.LabelOutlivesItsLease` | ambergate/agents.py:270-334 | a report with an unusable label leaves the label lease and renews the manual one: the target is still leased when its own lease has ended |
| `Scenarios.StretchedLease` | ambergate/agents.py:270-334 | a run of the registry in which that target is forwarded to |
| `Leases.HeldRoutes` | ambergate/agents.py:318-322 | a renewal over quota keeps exactly the routes that have a port |
| `Routing.Collect` | ambergate/agents.py:361-376 | the entries of all live agents, in order, on their port or on a placeholder; an entry is emitted exactly if an enabled agent within its timeout has a route for it |
| `Routing.EntriesExactly` | ambergate/agents.py:361-376 | which entries are emitted, written out: spec, source, weight, backup, address and port |
| `Routing.EntriesJoin` | ambergate/agents.py:361-376 | agents contribute in turn |
| `Routing.AgentExactly` | ambergate/agents.py:361-376 | a live agent contributes one entry for each route, in order, any other none |
| `Routing.KnownExactly` | ambergate/agents.py:388-398 | the keys `materialize` knows: those of routes of enabled agents within their timeout |
| `Routing.PlaceholdersKnown` | ambergate/agents.py:388-412 | every placeholder that routing emits is recognized by materialize at the same time |
| `Routing.RoutingAfterReservation` | ambergate/agents.py:361-420 | substituting reserved ports into the entries of a review gives exactly the entries routing returns after the reservation |
| `Routing.ScanThawed` | ambergate/labels.py:228-246 | what a scan reconciles never speaks for a source it freezes |
| `Frames.RoundTrip` | ambergate/tunnel.py:40-81 | decoding an encoded frame from the opposite role returns it and leaves the following bytes, for any mask, exactly for the frames the tunnel accepts; any other is refused |
| `Frames.MaskedTwice` | ambergate/tunnel.py:46-50 | masking is its own inverse |
| `Frames.XorExactly` | ambergate/tunnel.py:50-50 | each bit of a masked byte says whether the bits of byte and mask differ |
| `Frames.EncodeExactly` | ambergate/tunnel.py:40-53 | a frame byte by byte: flags, opcode, length, mask and payload |
| `Frames.ParseExactly` | ambergate/tunnel.py:58-75 | what a receiver makes of its input, byte by byte: when it refuses, waits, or takes a frame |
| `Frames.LongLength` | ambergate/tunnel.py:66-70 | when a length of eight bytes is allowed |
| `Frames.BigEndianValue` | ambergate/tunnel.py:44-48 | lengths survive their encoding |
| `Frames.SameRoleRefused` | ambergate/tunnel.py:61-63 | a frame from one's own role is refused |
| `Frames.CutFrame` | ambergate/tunnel.py:34-38 | a frame cut short is never taken for another |
| `Tunnel.Conversation` | ambergate/tunnel.py:58-81 | with pings and pongs interleaved, the receiver yields exactly the data frames and echoes the pings in order |
| `Tunnel.FrameStep` | ambergate/tunnel.py:76-81 | what one more frame is to its receiver: a pong is skipped, a ping answered, any other handed on |
| `Tunnel.NextFirst` | ambergate/tunnel.py:58-81 | one receive call, frame by frame |
| `Tunnel.Truncation` | ambergate/tunnel.py:58-81 | a stream cut anywhere yields and echoes a prefix |
| `Tunnel.NextReceives` | ambergate/tunnel.py:58-81 | receiving a stream is receiving call by call |
| `Tunnel.ReceivedPrefix` | ambergate/tunnel.py:58-81 | more input never takes back what was received |
| `Tunnel.WebSocket.Exact` | ambergate/tunnel.py:34-38 | all the bytes asked for, or the end |
| `Tunnel.WebSocket.Send` | ambergate/tunnel.py:40-53 | the bytes of one frame, as many as the connection takes before it fails; nothing when the frame is too large or the connection is closed |
| `Tunnel.WebSocket.ReadFrame` | ambergate/tunnel.py:60-74 | reading piece by piece is parsing |
| `Tunnel.WebSocket.Receive` | ambergate/tunnel.py:58-81 | the first data frame, with every ping before it answered in order; it breaks off at a pong that fails part-way or when another thread closes the connection, and then only the last pong is torn |
| `Tunnel.WebSocket.Answer` | ambergate/tunnel.py:76-79 | one pong, whole or torn, unless the connection is closed |
| `Tunnel.WebSocket.Upload` | ambergate/tunnel.py:194-206 | the chunks handed to the socket are a prefix of the chunks read, one binary frame each, among the pings and pongs of other threads; no chunk follows a torn one, and the one torn is the last |
| `Tunnel.WebSocket.Download` | ambergate/tunnel.py:210-220 | what is written is a prefix of the binary payloads received, and all of it if not interrupted |
| `Torn.TearExactly` | ambergate/tunnel.py:34-81 | behind a frame of which only a part went out some frames do harm exactly if the tear is a hazard: by role, opcode and place of the cut |
| `Torn.HarmlessTear` | ambergate/tunnel.py:58-81 | behind any other tear the receiver sees nothing at all, whatever frames follow |
| `Torn.HarmfulChunk` | ambergate/tunnel.py:190-206 | behind a hazardous tear of a chunk pings and pongs suffice to have bytes bridged that were never read |
| `Torn.HarmfulControl` | ambergate/tunnel.py:83-90 | behind a hazardous tear of a ping or pong some chunks are skipped or replaced |
| `Torn.BridgePrefix` | ambergate/tunnel.py:190-220 | end to end, with any cut of the stream: if at most one write failed, and it was the last or its tear is no hazard, the bytes bridged are a prefix of the bytes read, and all of them once every write went out whole and arrived |
| `Torn.Bridge` | ambergate/tunnel.py:190-220 | the same for the two ends as objects: one uploads, the other downloads |
| `Torn.TornRun` | ambergate/tunnel.py:83-90 | a run in which a torn heartbeat makes the other end bridge a byte that was never read first |
| `Counters.MergeCounts` | ambergate/metrics.py:43-48 | merging counters equals counting the concatenated samples |
| `Counters.CountStep` | ambergate/metrics.py:32-41 | what one more sample adds to each field, written out |
| `Counters.HistogramStep` | ambergate/metrics.py:39-41 | a sample falls into the first bin whose bound it does not exceed, or into the last |
| `Counters.HistogramCounts` | ambergate/metrics.py:32-41 | a bin counts exactly the samples that fall into it |
| `Counters.StatusCounts` | ambergate/metrics.py:37-37 | a status count is the number of samples of its class |
| `Counters.BinsUpTo` | ambergate/metrics.py:41-41 | the bins up to a bound hold exactly the samples up to that bound |
| `Counters.RankedIsPercentile` | ambergate/metrics.py:50-58 | the value at the rank of the sorted samples is the nearest-rank percentile the bracket speaks of |
| `Counters.PercentileBracketed` | ambergate/metrics.py:50-58 | the true percentile lies in the chosen bin and is at most the reported one, which is at most the bin's bound and the maximum |
| `Counters.Counter.Add` | ambergate/metrics.py:32-41 | adding a sample is merging a counter of that sample alone |
| `Counters.Counter.Merge` | ambergate/metrics.py:43-48 | every field is combined |
| `Counters.Counter.Result` | ambergate/metrics.py:50-65 | the shares, the average and the percentile of the samples, each absent exactly when there is nothing to divide by; shares lie between 0 and 100, the average and the percentile below the maximum |
| `Counters.Counter.Percent95` | ambergate/metrics.py:50-58 | the percentile is absent exactly without requests and otherwise bounds the true one |
| `Metrics.Metrics.Record` | ambergate/metrics.py:129-160 | a packet is accepted exactly within the stated limits; an unacceptable one changes nothing; an accepted one is counted once in the bucket of its time, under its own or the catch-all name |
| `Metrics.KeyExactly` | ambergate/metrics.py:119-149 | the bucket of a time is the ten seconds it lies in; ninety are kept |
| `Metrics.GatherExactly` | ambergate/metrics.py:150-156 | under which name a host is counted, and what that changes |
| `Metrics.UnexpiredExactly` | ambergate/metrics.py:124-127 | exactly the events in front that are older than the window go |
| `Metrics.PushedExactly` | ambergate/metrics.py:158-160 | of more than thirty events the oldest goes |
| `Metrics.LimitFields` | ambergate/metrics.py:154-154 | the two limits that nginx writes are read back one by one |
| `Metrics.Metrics.Observe` | ambergate/metrics.py:149-160 | what an accepted packet does to its bucket, the last request and the events |
| `Metrics.Metrics.Prune` | ambergate/metrics.py:119-127 | exactly the buckets before the window go |
| `Metrics.Metrics.TakeSnapshot` | ambergate/metrics.py:162-184 | the total is the sum over domains, the sum over the series, and exactly the accepted samples between the window start and now; at most 90 points and 129 names |
| `Metrics.Metrics.Collect` | ambergate/metrics.py:168-176 | the same over any range of bucket keys within the window |
| `Metrics.Metrics.MergeBucket` | ambergate/metrics.py:169-174 | a column adds each counter once to its point and once to its domain |
| `Metrics.Metrics.Space` | ambergate/metrics.py:119-160 | at most 92 buckets of at most 129 distinct names, and 30 events |
| `Metrics.GatherSum` | ambergate/metrics.py:150-156 | counting under a name adds exactly that count and keeps names distinct and bounded |
| `Metrics.KeyBounds` | ambergate/metrics.py:143-149 | an accepted time falls within one bucket of the window |
| `Metrics.CountedSplit` | ambergate/metrics.py:166-176 | windows add up |
| `Metrics.OneRecent` | ambergate/metrics.py:177-179 | the rate comes from one completed bucket, and there is one exactly if the series has that bucket |
| `Login.Auth.Begin` | ambergate/auth.py:54-66 | which attempts are refused, for what and for how long; once the announced delay has passed credit suffices; only a started login is charged |
| `Login.Auth.Admit` | ambergate/auth.py:61-66 | an attempt with credit starts exactly if its source has no login running, a slot is free and the table has room |
| `Login.AnnouncedExactly` | ambergate/auth.py:58-60 | the announced delay is the least whole number of seconds, from one, after which the credit suffices |
| `Login.LiveJoin` | ambergate/auth.py:78-82 | live sessions stay in order |
| `Login.Auth.Charge` | ambergate/auth.py:66-66 | charging keeps the metering |
| `Login.Auth.Release` | ambergate/auth.py:73-75 | the slot of the source comes back |
| `Login.Auth.Complete` | ambergate/auth.py:76-86 | a login succeeds exactly if the password verified and was not changed meanwhile; a session opens and the oldest goes when there are a hundred |
| `Login.Auth.Lookup` | ambergate/auth.py:88-94 | only a live session is returned, one opened under the password in force |
| `Login.Auth.ChangePassword` | ambergate/auth.py:100-104 | no session survives a password change |
| `Login.Auth.RateObeyed` | ambergate/auth.py:54-66 | between successes a source is charged at most ten attempts and one more per 30 seconds, over any span |
| `Login.ForgettingExact` | ambergate/auth.py:56-58 | forgetting idle sources changes no credit decision |
| `Login.DelaySuffices` | ambergate/auth.py:57-60 | after the announced delay the credit suffices |
| `Login.Auth.Forget` | ambergate/auth.py:56-56 | the same for the table as a whole |
| `Admission.Gate.Enter` | ambergate/http_security.py:72-81 | a connection is admitted exactly if the pending connections and those of its peer are below their limits |
| `Admission.Gate.Identify` | ambergate/http_security.py:83-96 | a pending connection moves to its client's charge exactly if the client has room |
| `Admission.Gate.Promote` | ambergate/http_security.py:98-108 | a connection changes kind exactly if the new kind has room |
| `Admission.Gate.Leave` | ambergate/http_security.py:117-121 | a connection is forgotten once |
| `Admission.Gate.Add` | ambergate/http_security.py:78-81 | counting a connection keeps every count equal to what it counts |
| `Admission.Gate.Drop` | ambergate/http_security.py:110-121 | so does releasing one; a source count never stays at zero |
| `Admission.Gate.SourcesSum` | ambergate/http_security.py:63-121 | the source counts add up to the pending count |
| `Admission.FindClient` | ambergate/http_security.py:24-43 | the walk over the forwarding chain |
| `Admission.VouchedFor` | ambergate/http_security.py:38-43 | every hop after the address found is trusted |
| `Admission.ForgeryIgnored` | ambergate/http_security.py:38-43 | items put in front of the chain change nothing once an untrusted hop is reached |
| `Rendering.Render` | ambergate/nginx.py:127-201 | the zones, upstreams and servers of the whole configuration |
| `Rendering.DeclareRoutes` | ambergate/nginx.py:94-103 | each route with targets declares one upstream, and a rate zone if it has a rate |
| `Rendering.CompileHost` | ambergate/nginx.py:127-201 | the location table of a host |
| `Rendering.CompileRoutes` | ambergate/nginx.py:137-141 | the locations of all routes, and whether a root route is among them |
| `Rendering.CompileRoute` | ambergate/nginx.py:139-141 | a root route has one location, any other an exact and a prefix one |
| `Rendering.CompileLocation` | ambergate/nginx.py:141-196 | what one location does |
| `Locations.HostDistinct` | ambergate/nginx.py:127-201 | no two locations of a host match the same thing |
| `Locations.RouteReached` | ambergate/nginx.py:137-201 | exact-then-longest-prefix selection reaches the route with the longest segment prefix, routes without targets included |
| `Locations.RouteReachedExactly` | ambergate/nginx.py:137-196 | what such a request gets, written out: a slash added, 503, or the upstream with its zones and whether the prefix is stripped |
| `Locations.NothingReached` | ambergate/nginx.py:197-201 | a request that no route serves reaches 404 |
| `Locations.ChallengeReached` | ambergate/nginx.py:127-130 | with TLS on a challenge request reaches the challenge location, which no route shadows |
| `Locations.SomethingReached` | ambergate/nginx.py:137-201 | some location always matches |
| `Locations.StripsPrefix` | ambergate/nginx.py:194-196 | a stripping route hands the application its own path, from either of its locations |
| `Rendering.Declared` | ambergate/nginx.py:74-118 | every upstream and zone a location names is declared, and none twice |
| `Rendering.ServerNamesUnique` | ambergate/nginx.py:119-119 | enabled hosts have distinct server names |
| `Rendering.ServersExactly` | ambergate/nginx.py:119-201 | exactly the enabled hosts have servers |
| `Rendering.UpstreamsExactly` | ambergate/nginx.py:94-103 | exactly the routes with targets of enabled hosts have upstreams |
| `Rendering.ZonesExactly` | ambergate/nginx.py:94-103 | exactly those of them with a rate have zones |
| `Rewrite.RewriteIdempotent` | ambergate/response_rewrite.py:9-22 | rewriting twice equals once, for redirects and cookie paths |
| `Rewrite.UnchangedExactly` | ambergate/response_rewrite.py:12-16 | a root-relative value is left alone exactly if it is protocol-relative or under the prefix, save for a fragment right behind the prefix |
| `Rewrite.FragmentPrefixedTwice` | ambergate/response_rewrite.py:16-16 | that exception, concretely |
| `Rewrite.ExternalKept` | ambergate/response_rewrite.py:20-23 | an absolute redirect is rewritten exactly for the route's own authorities and unprotected paths |
| `Rewrite.RelativeExactly` | ambergate/response_rewrite.py:12-17 | what becomes of a root-relative redirect or cookie path, written out |
| `Rewrite.AbsoluteExactly` | ambergate/response_rewrite.py:18-23 | what becomes of an absolute redirect, written out: the domain with or without a port, or an upstream |
| `Rewrite.OtherwiseKept` | ambergate/response_rewrite.py:9-23 | anything else is left alone |
| `Rewrite.StripUndoesRewrite` | ambergate/response_rewrite.py:16-16 | for every root-relative redirect, query and fragment included: stripping the path a browser asks for gives the application's path back exactly if the redirect was rewritten |
| `Rewrite.RedirectComesBack` | ambergate/response_rewrite.py:9-22 | the browser asks for the path of a rewritten redirect, its query and fragment carried along; nginx chooses the same route and asks the application for exactly the path it named, if and only if no deeper route takes that path |
| `Rewrite.DeeperRouteTakes` | ambergate/nginx.py:137-141 | the case of route `/api`, redirect `/login?next=1` and route `/api/login` |
| `Rewrite.DeeperRoutes` | ambergate/nginx.py:137-141 | a longer route that serves a path below a route lies below that route |
| `Rewrite.CookieScope` | ambergate/response_rewrite.py:17-17 | a rewritten cookie covers the public form of a path exactly if the original covers the path |

## Left out

- Sockets, TLS, threads, HTTP handlers, server-sent events, subprocesses, namespaces and file durability: only their success or failure appears.
- Docker discovery and endpoint choice, certificate issuance, URL settings, the user interface and the installer.
- Label parsing: entries and labels arrive parsed. The list of changes shown for review.
- Syntax of domains, upstream addresses, e-mail addresses and certificate terms in `validate`, and the settings that no property here uses.
- Legacy agent reports without routes, and the conversion of such reports at startup.
- Float rounding in metrics and rates: numbers are exact.
- Interruptions other than raised errors in the middle of a locked block.
- Saving, previewing, testing and restoring drafts, starting the store, and the conflict check on draft revisions: they lean on the functions proved here and add no harder property.
- Creating, renaming and enabling agents beyond what a definition change means for connections, and the 32-agent limit.
- nginx directives other than location selection, upstream and zone names, and redirect and cookie rules: caching, HTML substitution, percent-decoding, path normalization, the method and dotfile guards.
- The order in which the source's dictionaries of groups, hosts and options are built: they are lookups here. Ownership is held with its route instead of under the route's id, which differs only when a generated id repeats, and then validation rejects the result.
- Aliasing of the nested configuration dictionaries that `reconcile` and `materialize` edit in place: they are values that the loops reassign. A counter inside the metrics buckets is a value too; the counter class is proved against the same functions.
- Header values have no line breaks, which the rewriting rules rely on to match whole values.
- The port part of an upstream's authority arrives formatted.
- A store is opened on a complete active revision; first start and upgrade of generated files are not modelled.
- Outcome.AbsorbableExactly: for configurations in which two discovered targets of a route share an endpoint it says nothing; `Ownership.FoldSucceeds` does.
- Validator.Validate: the syntax of domains, upstream addresses, e-mail addresses, resolvers and certificate terms is not among its clauses.
- Validator.ValidateHost: the same for the clauses of one host.
- Transactions.Selections.Select: the checks that agent and containers are available come before it and are not part of it.
- Routing.Collect: the warnings, and the refresh of each agent's targets in the same loop, which `Registry.Agents.Refresh` states.
- Registry.Agents.Accept: a registry starts without reports; report files and their reading at startup are not modelled.
- Registry.Agents.Revoke: the rollback of the definitions when their file cannot be written.
- Scan.Scan: starts once the inventories are read; the kernel hands out ports that no configuration and no local entry mentions; the preview token and the warnings are not modelled.
- Torn.BridgePrefix: says nothing about runs in which two writes fail before the connection is closed.
- Torn.TearExactly: the source does not bound how many frames other threads write before the connection is closed, and neither does this.
- Login.ForgettingExact: speaks of credit only; the limit of 10,000 remembered sources refuses a new source, which unlimited memory would not.
- Locations.RouteReached: takes request paths as nginx normalized them, starting with a slash.
- Rewrite.RedirectComesBack: the same; a redirect whose path nginx would normalize differently is not covered.
