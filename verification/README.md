# Verified model of the managed proxy session

Five parts of the program share one shape: plain rules over state that is saved to disk, with a
possible failure at every step. This project models them in Dafny and proves what holds over whole
runs, not only over single calls.

* **Scoped recovery** (`Recovery.dfy`, `RecoveryRuns.dfy`, `RecoveryDecision.dfy`,
  `RecoveryVerdict.dfy`, `RecoveryScope.dfy`, `RecoveryReading.dfy`, `LogScan.dfy`,
  `PointerWalk.dfy`): the tick that decides when to move a route, with its switch budget, cooldown,
  quarantine, failure streak and batched log scan. The bounded saved state is proved to agree with
  an unbounded log of everything that happened, and that log decides each answer and each attempt.
* **DNS listener removal** (`Dns.dfy`, `DnsListener.dfy`, `DnsMeaning.dfy`): the rewriting of a
  resolver configuration, with the exact condition under which it keeps what every resolver pool
  means.
* **Policy boundary** (`Boundary.dfy`, `BoundaryOrder.dfy`, `PolicyApply.dfy`,
  `PolicyAcceptance.dfy`, `ProbeListeners.dfy`): the walk over a possibly cyclic group graph, the
  document that a policy produces, and the probe listeners made from it.
* **Profile store and hot switch** (`Store.dfy`, `StoreOperations.dfy`, `StoreRuns.dfy`,
  `HotSwitch.dfy`, `HotSwitchSteps.dfy`, `SessionRecord.dfy`): files changed by ordered renames, a
  live reload with compensation, and two kinds of writers of one record.
* **Supervisor and remembered choices** (`Supervisor.dfy`, `SupervisorSteps.dfy`,
  `DesiredState.dfy`, `DesiredHistory.dfy`): bounded restarts and a truncated most-recent-first
  list.

`Wrappers.dfy`, `Sequences.dfy` and `Names.dfy` hold what the others share.

Code that changes state in place is a class whose methods are proved equal to a function of the old
state; the main results are lemmas about those functions. Input and output are parameters: each call
of the controller, the log, the clock or the file system has its answer in an observation, an
environment or a script, and the results hold for all of them. `dafny verify dfyconfig.toml` checks
the whole project.

## Assumptions

* Recovery runs: the clock does not go back, profile and group do not change (a change resets the
  state), every save reaches the disk, and the run starts without saved state. The non-blocking lock
  makes concurrent ticks a sequence of ticks.
* Log rows have positive, ascending ids, as an SQLite table with an integer key gives them. Whether
  a row is a transport signal and whether it is an initial retry are flags of the row.
* A rename replaces a whole file. A write that reports failure may have replaced the file or not; a
  rejected reload may leave the core with any configuration. Ports reserved at the same time are
  distinct.
* How a resolver string is parsed, which fragments keep an upstream direct, and which text is blank
  are parameters of the DNS results; IPv4-mapped addresses (section 2.5.5.2 of RFC 4291) are IPv4
  addresses already.
* How a policy rewrites profile text and what makes it valid are parameters of the store results.

## Where a promise has an exception

* An attempt made at clock reading zero starts no five-minute cooldown, because zero also stands for
  "never switched" (`RecoveryRuns.CooldownExactly`, `RecoveryRuns.ZeroClockSkipsCooldown`).
* A signal at time zero starts no episode, because zero also stands for "no episode"
  (`RecoveryDecision.StreamEvidenceExactly`).
* A policy group that is itself a leaf of the snapshot has no previous choice, so a candidate that
  fails after selection stays selected (`RecoveryScope.Compensation`,
  `RecoveryScope.LeafGroupNotRestored`, `RecoveryScope.LeafGroupRun`).
* A rollback that stops between the swap of the profiles and the swap of the descriptors mixes the
  two pairs (`StoreRuns.RollbackWindow`, `StoreRuns.RollbackWindowIsReal`). Updates and replacements
  have no such window.
* A self reference inside a nested list is noticed but not rewritten, and a policy entry that is a
  mapping is emptied; either way the meaning is lost (`DnsMeaning.MeaningExactly`,
  `DnsMeaning.SelfFreeExactly`, `DnsMeaning.NestedReferenceLeft`, `DnsMeaning.MappingEntryEmptied`).
* A mode change goes to the running core and not to the runtime file, so a switch that fails later
  and is fully undone takes the mode back (`HotSwitch.FailureUndoneExactly`,
  `HotSwitch.LiveModeLost`).
* A session whose owner is gone has its files cleared before the switch answers that nothing is
  running (`HotSwitch.FailureUndoneExactly`, `HotSwitch.DeadSessionCleared`).

## Model

| member | source | states |
|---|---|---|
| `RecoveryRuns.SwitchBudget` | src/runtime/recovery.rs:256-273 | in every run, a non-forced attempt comes at least 3600 s after the second attempt before it, forced or not; so no hour that ends with one holds three attempts |
| `RecoveryRuns.SwitchCooldown` | src/runtime/recovery.rs:445-452 | in every run, a non-forced attempt comes at least 300 s after every earlier attempt that was not made at clock reading zero |
| `RecoveryRuns.CooldownExactly` | src/runtime/recovery.rs:445-452 | in every reachable state the cooldown gate blocks if and only if an attempt made at a clock reading other than zero is less than 300 s old |
| `RecoveryRuns.ZeroClockSkipsCooldown` | src/runtime/recovery.rs:445-452 | a concrete run shows that the exception is real: an attempt at clock reading zero does not cool the next one down |
| `RecoveryRuns.NoPingPong` | src/runtime/recovery.rs:457-463 | in every run, a node that was left by a switch or failed after selection is no candidate, forced or not, for 1800 s |
| `RecoveryRuns.FailoverEvidence` | src/runtime/recovery.rs:418-444 | in every run, a non-forced probe failover follows two or more unhealthy observations of one node, the oldest at least 60 s earlier, with no healthy observation or adoption since |
| `RecoveryRuns.StreamTrialEvidence` | src/runtime/recovery.rs:249-254 | in every run, a stream trial, forced or not, follows a chain of consumed signals, all since the last adoption, with gaps of at most 60 s, spanning at least 60 s and ending within 60 s of now |
| `RecoveryRuns.ReachableStateExact` | src/runtime/recovery.rs:36-66 | in every reachable state the pruned history, the last switch time, the active node, the failure streak, the episode bounds and the live quarantine are exactly what the unbounded log determines |
| `RecoveryRuns.PruneExact` | src/runtime/recovery.rs:256-273 | after migration from the events and pruning, the stored history is exactly the recent part of all attempts ever logged, so migration never revives an old entry |
| `RecoveryRuns.RunKeeps` | src/runtime/recovery.rs:288-329 | the agreement between saved state and unbounded log holds after every run of ticks |
| `RecoveryRuns.RecoverKeeps` | src/runtime/recovery.rs:331-554 | whatever a recovery does, it keeps that agreement and logs only attempts that the gates allow |
| `RecoveryRuns.GateGrants` | src/runtime/recovery.rs:436-463 | passing the evidence, cooldown and budget gates and the quarantine filter gives everything that an attempt promises about the log before it |
| `RecoveryRuns.SignalsKeep` | src/runtime/recovery.rs:204-227 | consuming any batch of rows keeps the episode bounds equal to those of the unbounded log |
| `RecoveryRuns.EpisodeWitness` | src/runtime/recovery.rs:212-221 | a stored episode is witnessed by a chain of consumed signals since the last adoption, with the same first and last times |
| `RecoveryDecision.TickExactly` | src/runtime/recovery.rs:288-554 | after any run, a tick that is too soon, refused or out of scope does nothing; in scope it makes an attempt if and only if evidence, cooldown and budget in the unbounded log allow it, or force does, and a first good member, neither current nor just left, still applies in the fresh snapshot; then exactly the stated requests and marks follow |
| `RecoveryDecision.DecideExactly` | src/runtime/recovery.rs:418-554 | the same from the judgement of the current node on |
| `RecoveryDecision.GateExactly` | src/runtime/recovery.rs:425-463 | the gates are passed if and only if the log holds the evidence and neither cooldown nor budget forbids it, or the tick is forced |
| `RecoveryDecision.ProbeEvidenceExactly` | src/runtime/recovery.rs:418-444 | the streak suffices if and only if the log holds two unhealthy observations of the node at least 60 s apart with nothing between that ends them |
| `RecoveryDecision.StreamEvidenceExactly` | src/runtime/recovery.rs:249-254 | a failing stream is seen if and only if the log holds a chain of signals since the last adoption that starts after time zero, spans at least 60 s and ends within 60 s of now |
| `RecoveryDecision.BudgetExactly` | src/runtime/recovery.rs:256-273 | the budget is free if and only if fewer than two logged attempts lie in the last 3600 s |
| `RecoveryDecision.AttemptExactly` | src/runtime/recovery.rs:457-554 | the candidate is the first good member that is neither current nor quarantined in the log, and the requests after it are exactly those stated |
| `RecoveryDecision.LastCheckStored` | src/runtime/recovery.rs:315-321 | the saved check time is that of the last tick that was not turned away |
| `RecoveryVerdict.TickReports` | src/runtime/recovery.rs:99-109 | after any run, a tick answers exactly what log and observation give, from lock and interval to the failed save, and the saved events are the newest 32 of the old ones and exactly those stated |
| `RecoveryVerdict.ExamineReports` | src/runtime/recovery.rs:366-554 | the answer and the events of one examination, told from the log up to the judgement of the node |
| `RecoveryVerdict.GateAnswers` | src/runtime/recovery.rs:425-463 | which gate answers, and with what, is decided by evidence, cooldown and budget of the log in that order |
| `RecoveryScope.SelectionInBoundary` | src/runtime/recovery.rs:353-365 | every request of a recovery targets the policy group; the selected node is the first eligible one whose two probes succeeded, a member of the generated group in both snapshots, neither the current leaf nor quarantined, and there is at most one selection and one restore |
| `RecoveryScope.Compensation` | src/runtime/recovery.rs:496-554 | with no outside change, every exit leaves a candidate that passed its probes before and after the selection and is recorded, the previous choice, or a failed last request, except for a group that is itself a leaf |
| `RecoveryScope.LeafGroupNotRestored` | src/runtime/recovery.rs:503-519 | when the selection took effect but is not kept, no restore request follows exactly if the group was itself the leaf |
| `RecoveryScope.LeafGroupRun` | src/runtime/recovery.rs:503-510 | a concrete recovery shows that the exception is reachable: the group stays on a candidate that failed after selection |
| `RecoveryScope.MarksMeanActions` | src/runtime/recovery.rs:497-535 | the unbounded log holds one attempt per selection request and one quarantine per node left or failed after selection, in that order, and nothing else |
| `Recovery.RunTick` | src/runtime/recovery.rs:288-329 | one tick on the state object, from lock to save, leaves the disk, the requests and the log that the tick function gives |
| `Recovery.RecoveryState.RecoverInPlace` | src/runtime/recovery.rs:331-554 | the recovery that updates the fields step by step ends in the state, answer, requests and log of the recovery function |
| `Recovery.RecoveryState.AttemptSwitch` | src/runtime/recovery.rs:457-554 | the candidate search and switch on the fields equals the attempt function |
| `Recovery.RecoveryState.SettleSelection` | src/runtime/recovery.rs:499-549 | the selection, its confirmation and its three exits on the fields equal the settling function |
| `Recovery.RecoveryState.Adopt` | src/runtime/recovery.rs:525-542 | adopting a candidate changes the active node, the switch time, the streak and the episode, and records the event, and changes nothing else |
| `Recovery.RecoveryState.FirstHealthy` | src/runtime/recovery.rs:460-480 | the candidate is the first eligible node whose two probes both succeed |
| `Recovery.RecoveryState.ObserveSelection` | src/runtime/recovery.rs:366-378 | a changed selection resets streak, feedback and cursor; an unchanged one changes nothing |
| `Recovery.RecoveryState.ListenToLog` | src/runtime/recovery.rs:379-393 | the log scan with its windowed count leaves the reader, count and window that the listening function gives |
| `Recovery.RecoveryState.AutomaticBudgetAvailable` | src/runtime/recovery.rs:256-273 | the migrating and pruning update leaves the pruned history and answers whether fewer than two attempts remain in it |
| `Recovery.RecoveryState.Feedback` | src/runtime/recovery.rs:171-234 | one call on the log leaves the reader of the scan function and returns its count, or no count after an undecodable row |
| `Recovery.RecoveryState.AbsorbRows` | src/runtime/recovery.rs:204-227 | the row loop stops at the first undecodable row and leaves cursor, episode and local count of the rows before it |
| `Recovery.RecoveryState.AddEvent` | src/runtime/recovery.rs:99-109 | the event list grows by one and drops its oldest entry beyond 32 |
| `LogScan.ExactlyOnce` | src/runtime/recovery.rs:186-233 | over any append-only sequence of views, each call asking from its own time on, the cursor only moves forward, each call consumes exactly the rows it passes that are recent enough for it, and the episode is one fold over them |
| `LogScan.SegmentsExact` | src/runtime/recovery.rs:194-203 | the rows so consumed have rising ids, and a relevant row is among them exactly if the call that passed it found it recent enough |
| `RecoveryReading.RunReads` | src/runtime/recovery.rs:366-393 | between two adoptions the ticks of a run read the log like one reader: the signals they log and the cursor and bounds they save are its own |
| `RecoveryReading.RunHearsExactlyOnce` | src/runtime/recovery.rs:186-233 | on an append-only log, a run hears between two adoptions the signals of exactly the rows its looks pass and find recent enough, each row once and in id order |
| `RecoveryReading.SignalsAreNewer` | src/runtime/recovery.rs:186-193 | every signal heard between an observed selection change and the next adoption comes from a row that was not in the log at the first look after the change |
| `RecoveryReading.ChangeHears` | src/runtime/recovery.rs:366-393 | after an observed selection change, a run hears exactly what a fresh reader without a cursor would |
| `RecoveryReading.LooksBack` | src/runtime/recovery.rs:194-194 | each look asks for rows no older than 600 s and no older than the last switch |
| `LogScan.Attaches` | src/runtime/recovery.rs:186-193 | a first call, a changed log or a shrunk one consumes nothing and leaves the reader at the greatest id present |
| `LogScan.NothingOldIsRead` | src/runtime/recovery.rs:186-233 | on an append-only log, no later call consumes a row that was there when the reader attached |
| `LogScan.DrainReachesUnboundedScan` | src/runtime/recovery.rs:204-233 | calls of 128 rows each end, and reach the cursor, bounds and count of one unbounded scan as soon as they can hold all matches |
| `LogScan.PollStep` | src/runtime/recovery.rs:186-233 | one call consumes exactly the matches between the old and the new cursor, and stops short of the newest id only after a full batch |
| `LogScan.AbsorbIsFold` | src/runtime/recovery.rs:204-227 | counting into a stored and a local counter gives the same episode as one fold that never splits the count |
| `LogScan.MatchingPrefix` | src/runtime/recovery.rs:194-203 | the first rows of a limited query are exactly what matches up to the last id returned |
| `PointerWalk.SelectedLeafExact` | src/runtime/recovery.rs:112-124 | the answer is a node exactly when the pointer chain reaches that true leaf within 32 names |
| `PointerWalk.SelectedLeafCapIrrelevant` | src/runtime/recovery.rs:112-124 | for snapshots of at most 32 entries the cap never hides a leaf |
| `PointerWalk.LeafWithinSnapshot` | src/runtime/recovery.rs:112-124 | a chain that ends in a leaf is shorter than the snapshot is large |
| `PointerWalk.FindSelectedLeaf` | src/runtime/recovery.rs:112-124 | the loop over a growing set of names computes the leaf search |
| `PointerWalk.SelectedFallbackExact` | src/runtime/session.rs:910-929 | the uncapped walk answers true exactly when the chain meets a fallback or url-test group |
| `PointerWalk.FindSelectedFallback` | src/runtime/session.rs:910-929 | the uncapped loop terminates on every snapshot, cyclic ones included, with that answer |
| `PointerWalk.CandidatesBounded` | src/runtime/session.rs:863-908 | at most four distinct choices, none the current one, each remembered or a fallback group of the global selector; none at all when the selection leads into a fallback group |
| `PointerWalk.CandidatesExactly` | src/runtime/session.rs:863-908 | outside every fallback chain the candidates are precisely the first four permitted names: remembered ones in their order, then fallback groups in the order of the global selector |
| `PointerWalk.RecoveryCandidates` | src/runtime/session.rs:863-908 | the two loops and the truncation compute that list |
| `PointerWalk.RememberedChoices` | src/runtime/session.rs:875-883 | the first loop keeps the remembered names in order, each once, without the current one |
| `PointerWalk.FallbackChoices` | src/runtime/session.rs:884-905 | the second loop appends the fallback groups of the global selector that are new |
| `DnsMeaning.MeaningExactly` | src/runtime/dns.rs:10-102 | an accepted configuration gives the same main, node and direct resolution for every domain before and after if and only if no pool and no policy entry hides a self reference in a nested list or mapping; a self entry means the main pipeline before, and dangles after |
| `DnsMeaning.MeaningPreserved` | src/runtime/dns.rs:10-102 | where nothing is hidden, every domain resolves as before |
| `DnsMeaning.MeaningLost` | src/runtime/dns.rs:49-101 | where something is hidden, some domain does not |
| `DnsListener.SelfExactly` | src/runtime/dns.rs:159-182 | which endpoints reach a listener, by address and port: wildcard, loopback and localhost spelt out, the port always equal |
| `DnsListener.ContainsExactly` | src/runtime/dns.rs:184-193 | a value contains a reference if and only if some leaf of its lists and mappings reaches the listener |
| `DnsListener.OptionsExactly` | src/runtime/dns.rs:195-208 | a value has a reference with options if and only if some leaf that reaches the listener carries a fragment that is not direct |
| `DnsListener.DirectExactly` | src/runtime/dns.rs:220-233 | when all upstreams are direct |
| `DnsListener.OutcomeExactly` | src/runtime/dns.rs:10-102 | every outcome of the preparation, each error and success, if and only if the stated references are in the section, key by key |
| `DnsListener.NameserverCycle` | src/runtime/dns.rs:20-31 | a section whose nameserver holds an endpoint that reaches its own listener is always refused as a cycle |
| `DnsMeaning.NestedReferenceLeft` | src/runtime/dns.rs:70-88 | a concrete accepted section whose nested self reference is left in the output |
| `DnsMeaning.MappingEntryEmptied` | src/runtime/dns.rs:89-100 | a concrete accepted section whose policy entry is a mapping with a self reference and is emptied |
| `DnsMeaning.SelfFreeExactly` | src/runtime/dns.rs:49-101 | an accepted configuration still refers to its old listener exactly when a self reference was hidden in a nested list or mapping of a pool; the main fields never refer to it |
| `DnsMeaning.FramePreserved` | src/runtime/dns.rs:235-249 | listener dropped, routing mark zeroed, all other keys unchanged; each pool is untouched, removed because it had self entries only and may be absent, or rewritten with its own entries in order, without duplicates, and new entries that are direct upstreams of the nameserver field |
| `DnsMeaning.PreparedIdempotent` | src/runtime/dns.rs:10-102 | preparing a prepared section changes nothing |
| `DnsMeaning.ExpandedPool` | src/runtime/dns.rs:235-249 | replacing self entries by the upstreams keeps what a pool that hides nothing means when the main pipeline is just these upstreams |
| `DnsMeaning.InheritedPool` | src/runtime/dns.rs:75-80 | a pool of self entries only may be removed because it means the main pipeline |
| `DnsMeaning.NodePreserved` | src/runtime/dns.rs:49-101 | where nothing is hidden, node resolution, with and without node policy, keeps its meaning |
| `DnsMeaning.DirectPreserved` | src/runtime/dns.rs:70-88 | where nothing is hidden, direct resolution keeps its meaning |
| `DnsMeaning.PolicyPreserved` | src/runtime/dns.rs:89-100 | every entry of the node policy that hides nothing keeps its meaning |
| `DnsMeaning.EntrySelfFree` | src/runtime/dns.rs:93-99 | a rewritten policy entry contains a self reference exactly when one was hidden in a nested value |
| `Dns.DnsSection.PrepareManagedDns` | src/runtime/dns.rs:10-102 | the in-place removal and insertion of keys computes the preparation function, error by error |
| `Dns.DnsSection.AdaptPool` | src/runtime/dns.rs:70-88 | one turn of the pool loop leaves, removes or expands the field |
| `Dns.DnsSection.AdaptNodePolicy` | src/runtime/dns.rs:89-100 | the loop over the policy entries rewrites each of them |
| `Dns.Expand` | src/runtime/dns.rs:235-249 | the nested loops that push what is not yet present compute the deduplicated expansion |
| `Boundary.BoundaryExact` | src/profile/policy.rs:234-288 | the walk succeeds exactly when every path from the group is well named, resolvable, static, acyclic and at most 32 groups deep; its output is then precisely the reachable leaves, without duplicates, in first-visit order |
| `Boundary.Collector.CollectLeaves` | src/profile/policy.rs:234-288 | the recursion that mutates the set and the list terminates by 32 minus the size of the set, restores the set on success and appends the new leaves in order |
| `Boundary.Collect` | src/profile/policy.rs:77-85 | called with nothing open and nothing collected it gives the boundary |
| `Boundary.WalkSound` | src/profile/policy.rs:234-288 | a successful walk has seen every path, and the leaf at its end |
| `Boundary.WalkComplete` | src/profile/policy.rs:234-288 | a rejected walk has a path that justifies the rejection |
| `Boundary.WalkReaches` | src/profile/policy.rs:234-288 | every collected leaf ends a path |
| `BoundaryOrder.BoundaryInOrder` | src/profile/policy.rs:273-286 | of two leaves, the earlier one has a route through the group graph that precedes every route to the later one at the first group where they part |
| `Boundary.NamesExactly` | src/profile/policy.rs:241-253 | which names are valid and which four are built in |
| `Boundary.MembersExactly` | src/profile/policy.rs:257-275 | the members are those of the first static group of that name |
| `PolicyApply.ManagedGroups` | src/profile/policy.rs:65-222 | the generated group is a duplicate-free permutation of the reachable leaves with the preferred node first when present; the selector is that group followed by the same leaves; all other groups are unchanged; the policy's rules come before the document's own |
| `PolicyApply.LegacyGroups` | src/profile/policy.rs:112-196 | a legacy policy generates a fallback group from exactly the direct leaf members, each once |
| `PolicyApply.ReapplyRejected` | src/profile/policy.rs:69-76 | a policy is refused on its own output, managed or not |
| `PolicyAcceptance.AppliedExactly` | src/profile/policy.rs:28-231 | a policy is accepted if and only if its names are sound, the generated name is free, the first group of its name can be taken over and has something to choose from, and, if it is managed, every path below ends well, its name has no comma and the rules can be extended; a refusal names the size only then |
| `PolicyAcceptance.WritesExactly` | src/profile/policy.rs:135-222 | the whole document written: the group taken over, the generated group at the end, five literal rules in front, the probe group, and nothing else |
| `PolicyAcceptance.ManagedOrder` | src/profile/policy.rs:129-134 | but for a preferred node in front, the generated nodes follow the order of the group graph |
| `PolicyAcceptance.LegacyOrder` | src/profile/policy.rs:116-134 | but for a preferred node in front, the legacy nodes follow the order of the direct members |
| `PolicyAcceptance.PolicyExactly` | src/profile/policy.rs:26-42 | which policies are sound, character by character |
| `PolicyApply.PreferredFirstMeaning` | src/profile/policy.rs:129-134 | moving the preferred node only permutes the list and puts it first |
| `PolicyApply.Profile.Apply` | src/profile/policy.rs:44-231 | the in-place rewriting of groups and rules computes the application function, error by error |
| `PolicyApply.Profile.InsertRules` | src/profile/policy.rs:205-222 | inserting the rules one by one at the front leaves them in their written order |
| `PolicyApply.Profile.MovePreferred` | src/profile/policy.rs:129-134 | removal and insertion at the front compute the reordering |
| `PolicyApply.Profile.DirectLeaves` | src/profile/policy.rs:116-122 | the filter over the direct members keeps the leaves, each once |
| `ProbeListeners.EveryCandidateProbed` | src/runtime/config.rs:79-144 | end to end: exactly the reachable leaves have a probe listener, each its own on a port of its own, and the probe of a node finds it |
| `ProbeListeners.ProbeNodesAreLeaves` | src/runtime/config.rs:84-111 | after a managed policy the nodes to be probed are exactly the reachable leaves |
| `ProbeListeners.InstallNodeProbeListeners` | src/runtime/config.rs:79-144 | rejected exactly above 64 nodes or when a port cannot be reserved; otherwise exactly one listener per node on distinct ports |
| `ProbeListeners.BindAll` | src/runtime/config.rs:115-141 | the reservation loop gives each node its own port or fails |
| `ProbeListeners.ProbePortFound` | src/mihomo/node_probe.rs:33-51 | the lookup of a node returns the port of its only listener |
| `StoreRuns.CrashConsistent` | src/profile/store.rs:384-442 | however an update or replacement ends, the old pair is whole in the live or the backup files, it is the backup once both backup renames are done, and each file holds an old or a new value in full |
| `StoreRuns.RollbackRestores` | src/profile/store.rs:196-216 | from wherever a replacement stopped after its backup renames, rollback is accepted and restores the old live pair |
| `StoreRuns.RollbackExchanges` | src/profile/store.rs:444-478 | a completed rollback exchanges the two pairs, and a second one is its inverse |
| `StoreRuns.RollbackWindow` | src/profile/store.rs:444-478 | a cut-off rollback keeps the old live pair whole if and only if it did not stop between the two swaps, or the two sources or the two profiles are equal |
| `StoreRuns.RollbackWindowIsReal` | src/profile/store.rs:211-214 | a concrete rollback that stops between the swaps leaves no whole pair |
| `StoreRuns.StoreCoherent` | src/profile/store.rs:99-216 | over any requests that a store starting empty completes or never starts, every live pair and every backup pair is coherent, and the two backup files exist together |
| `StoreRuns.CompletedIsCoherent` | src/profile/store.rs:133-194 | from any disk whatever, a completed operation other than rollback leaves a coherent live pair and the old pair as backup |
| `StoreRuns.CutShortStillCoherent` | src/profile/store.rs:384-478 | in every reachable store, an operation cut short outside the rollback window leaves a coherent live or backup pair |
| `StoreOperations.ReplaceExactly` | src/profile/store.rs:169-194 | a replacement keeps its own policy or else the previous one, drops it if and only if it was inherited and is refused as a misfit, and then stores the raw download; exactly when and how it is refused |
| `StoreOperations.ConfigureExactly` | src/profile/store.rs:133-146 | configuring leaves exactly the managed policy of the given group and the download with it applied; exactly when and how it is refused |
| `StoreOperations.DisableExactly` | src/profile/store.rs:148-157 | disabling leaves no policy and the raw download; exactly when and how it is refused |
| `StoreOperations.UpdateExactly` | src/profile/store.rs:159-167 | an update keeps the descriptor and stores the download with its policy applied; exactly when and how it is refused |
| `StoreOperations.RollbackExactly` | src/profile/store.rs:196-216 | a rollback exchanges the pairs that are there; refused exactly without a backup or with an invalid profile |
| `StoreOperations.AddExactly` | src/profile/store.rs:99-125 | a profile is added if and only if its id is well formed and new and its download is accepted; the others stay as they are |
| `Names.IdExactly` | src/profile/store.rs:295-308 | which profile ids are accepted, character by character |
| `Store.ProfileDirectory.UpdateProfile` | src/profile/store.rs:159-167 | every outcome of an update is one the plan allows, with the files changed by exactly the renames reported |
| `Store.ProfileDirectory.ReplaceProfileSource` | src/profile/store.rs:169-194 | the same for a source replacement, including the inherited policy that is dropped when it no longer fits |
| `Store.ProfileDirectory.ConfigureProfilePolicy` | src/profile/store.rs:133-146 | the same for configuring a managed policy |
| `Store.ProfileDirectory.DisableProfilePolicy` | src/profile/store.rs:148-157 | the same for disabling the policy |
| `Store.ProfileDirectory.RollbackProfile` | src/profile/store.rs:196-216 | the same for a rollback, whose renames are a prefix of the two swaps or a swap undone |
| `Store.ProfileDirectory.ReplaceWithBackup` | src/profile/store.rs:384-406 | the three renames happen in order and success means all of them |
| `Store.ProfileDirectory.ReplaceSourceWithBackup` | src/profile/store.rs:408-442 | the four renames happen in order and success means all of them |
| `Store.ProfileDirectory.Swap` | src/profile/store.rs:444-478 | a swap does nothing, its first rename, both, or its first rename and the undo of it |
| `HotSwitch.SuccessIsComplete` | src/runtime/session.rs:783-847 | success means core, runtime file, record and desired state all hold the new profile, and the record changed in its profile alone |
| `HotSwitch.FailureUndoneExactly` | src/runtime/session.rs:747-848 | an error other than SessionSwitchRollback leaves core, file and record as they were if and only if the core ran what the runtime file says, once the switch was prepared, or no dead session was cleared away, before that |
| `HotSwitch.LiveModeLost` | src/runtime/session.rs:783-816 | a concrete run: a mode set live is taken back by a switch that fails and is fully undone |
| `HotSwitch.DeadSessionCleared` | src/runtime/session.rs:850-860 | a concrete switch that finds the owner dead and clears file and record |
| `HotSwitch.RollbackReportedExactly` | src/runtime/session.rs:1430-1450 | SessionSwitchRollback is reported if and only if a step after preparation failed and an undo step failed too |
| `HotSwitch.RunShowsLatestSuccess` | src/runtime/session.rs:747-848 | over any run of switches, live mode changes and child restarts without a failed undo, file and record show the latest successful switch and the latest restart, and so does the core, but for a mode set live since it was last loaded |
| `HotSwitch.MoveShows` | src/runtime/session.rs:747-848 | how one switch, mode change or restart changes what core, file and record show |
| `HotSwitch.SwitchAndRestartCommute` | src/runtime/session.rs:315-334 | a successful switch and a successful child restart leave the same session in either order, with both changes in the record |
| `HotSwitchSteps.AnswerExactly` | src/runtime/session.rs:747-848 | a switch succeeds if and only if every step works; otherwise the first of the seventeen steps that fails names the error, unless it had to be undone and was not |
| `HotSwitchSteps.UndoneExactly` | src/runtime/session.rs:1430-1450 | what core, file, record and desired state hold after a failed step, whichever undo steps fail |
| `HotSwitchSteps.RefusedExactly` | src/runtime/session.rs:747-797 | a switch refused before the reload changes nothing, but for the files of a dead session |
| `HotSwitchSteps.ChildExactly` | src/runtime/session.rs:315-334 | a restarted child reaches the record of its own session only, and every failure is named |
| `HotSwitch.SessionManager.SwitchProfile` | src/runtime/session.rs:747-848 | the steps on core and files compute the switch function, error by error, undo included |
| `HotSwitch.SessionManager.RollbackSwitch` | src/runtime/session.rs:1430-1450 | all three undo steps are tried, and the original error is kept exactly when all of them succeed |
| `HotSwitch.SessionManager.ActiveLocked` | src/runtime/session.rs:850-860 | only a session whose owner is alive is returned; one whose owner is gone has its files cleared |
| `HotSwitch.SessionManager.SetMode` | src/tui/mod.rs:231-238 | a mode change reaches the running core and nothing else |
| `HotSwitch.SessionManager.UpdateChildRecord` | src/runtime/session.rs:315-334 | the record read under the lock changes in process id and start time only, or not at all |
| `SessionRecord.NothingLost` | src/runtime/session.rs:315-334 | however switches and restarts interleave, whichever reads and writes fail and whichever holder dies, an unlocked record has the latest committed profile, the latest committed process and the identity of the running session |
| `SessionRecord.RunKeeps` | src/runtime/session.rs:747-848 | in every reachable interleaving the lock holder alone is inside, and its private copy agrees with the file and the commits |
| `SessionRecord.OneInside` | src/runtime/session.rs:1047-1060 | at most one thread is between its lock and its return |
| `SessionRecord.StaleChildRefused` | src/runtime/session.rs:322-326 | a restart is refused as stale exactly when the running session is another one, and reading changes nothing |
| `SessionRecord.SuccessCommits` | src/runtime/session.rs:820-848 | a thread succeeds only in the step that logs its own commit |
| `SessionRecord.LatestByField` | src/runtime/session.rs:327-331 | each commit decides its own fields and no others |
| `Supervisor.RestartsBounded` | src/runtime/session.rs:269-295 | at every moment of every run, the delays since the last uptime of 60 s are a prefix of 1, 2, 4, 8, 16, 30 and at most six restarts were attempted |
| `Supervisor.GivesUpExactly` | src/runtime/session.rs:273-283 | the restart limit is reported only with the whole backoff spent, and a loop that still retries has not spent it |
| `Supervisor.HangNeedsTwoFailures` | src/runtime/session.rs:237-268 | the child is stopped as hung only after two failed controller checks with no success, busy lock or restart between them or since |
| `Supervisor.TwoFailuresActed` | src/runtime/session.rs:260-266 | a loop that is watching never stands at two failed checks |
| `SupervisorSteps.MomentExactly` | src/runtime/session.rs:209-301 | after every run, one more moment ends the run with exactly the stated result, restarts it, or neither, and logs exactly the stated entries, told from the log instead of the counters |
| `SupervisorSteps.ReportedCode` | src/runtime/session.rs:273-283 | the exit code reported with the restart limit is that of the last time the child went down, and every attempt since found no ready child |
| `Supervisor.RunKeeps` | src/runtime/session.rs:209-301 | the counters always agree with the log of what happened |
| `Supervisor.Supervision.SupervisionLoop` | src/runtime/session.rs:231-296 | the outer loop computes the run of every script |
| `Supervisor.Supervision.RestartChild` | src/runtime/session.rs:273-294 | the restart loop computes its part of the run |
| `Supervisor.Supervision.TryRestart` | src/runtime/session.rs:277-293 | one delay from the backoff and one restart attempt, with its four ends |
| `Supervisor.Supervision.CheckController` | src/runtime/session.rs:237-268 | one controller tick resets or raises the failure count, ends the loop or reports a stopped child |
| `DesiredState.RecencyRefinesHistory` | src/state.rs:162-182 | after any calls with any failures, the stored list of a group is the first four of all its recordings since the last profile change, read backwards without repetition, although older names were forgotten |
| `DesiredState.RecentIsLatest` | src/state.rs:162-182 | each name keeps the time of its latest recording |
| `DesiredState.RecentNames` | src/state.rs:162-182 | the unbounded list is the distinct names of the history read backwards |
| `DesiredState.TruncatedRemember` | src/state.rs:162-182 | forgetting all but four entries changes no later list of four |
| `DesiredState.PersistedValid` | src/state.rs:188-195 | whatever is recorded, what is on disk passes validation |
| `DesiredState.UpdateValidExactly` | src/state.rs:315-345 | from a valid state with valid arguments, the second validation fails if and only if the digest is malformed or there would be more than 128 groups |
| `DesiredHistory.FileExactly` | src/state.rs:107-186 | whatever calls come with whatever failures, profile, digest, mode and attempt time on disk are those last recorded, and exactly those selections are stored that were neither set again nor dropped by a change of profile since |
| `DesiredHistory.AnswerExactly` | src/state.rs:188-195 | in every run, each call is answered by the first thing in its way: arguments, lock, file, room, write |
| `DesiredState.DesiredStateStore.RecordHealthySelection` | src/state.rs:162-182 | retain, insert in front and truncate, then write: the file and answer of the call function |
| `DesiredState.DesiredStateStore.RecordRuntime` | src/state.rs:120-137 | a new profile clears selections and lists; the file and answer of the call function |
| `DesiredState.DesiredStateStore.RecordProfile` | src/state.rs:107-118 | the same without the mode |
| `DesiredState.DesiredStateStore.RecordPolicySelection` | src/state.rs:143-150 | both selections are set in one write |
| `DesiredState.DesiredStateStore.RecordSelection` | src/state.rs:152-160 | one selection is set |
| `DesiredState.DesiredStateStore.RecordMode` | src/state.rs:139-141 | only the mode changes |
| `DesiredState.DesiredStateStore.MarkRecoveryAttempt` | src/state.rs:184-186 | only the time of the last attempt changes |
| `DesiredState.DesiredStateStore.Store` | src/state.rs:188-195 | an invalid or oversized state is never written; a failed write leaves the old or the new file |
| `DesiredState.DesiredStateStore.Load` | src/state.rs:100-105 | a missing file reads as the initial state, an invalid one is refused |

## Left out

- HTTP, TLS, SQLite, process, signal and port operations: only their possible outcomes are modelled.
- YAML, TOML, JSON, URL parsing and SHA-256: documents are values, the profile digest is passed in.
- The texts `status`, `endpoint_probe` and `feedback_status` of the recovery state: no decision reads them.
- Lengths of names in bytes and Unicode blanks: names are sequences of characters, and a blank is a space.
- The order in which probe listeners are taken from their sorted set: any order is covered.
- Recovery state migrated from older formats, and a clock that goes back.
- PointerWalk.RecoveryCandidates: the entry found under GLOBAL ignoring case is passed in, because the lookup in the sorted map is not modelled.
- Store.ProfileDirectory.RollbackProfile: descriptors that fail to parse when read back are one more failed read, because the descriptor text is not modelled.
- HotSwitch.FailureUndoneExactly: leaves out the desired state, because a save that fails after its rename may have kept the new profile; HotSwitchSteps.UndoneExactly says when.
- Recovery.RecoveryState.ListenToLog: the windowed count is only carried along, because no decision reads it.
- HotSwitch.SessionManager.SwitchProfile: the selections restored in the core after a switch are not part of its configuration here, since that step is best effort.
- StoreRuns.StoreCoherent: an operation cut short between its renames is not part of these runs, because it can leave a mixed live pair; what it does leave is stated by StoreRuns.CutShortStillCoherent and repaired as StoreRuns.CompletedIsCoherent says.
- The contents of the backup pair after a failure between the two backup renames, and the store after a switch that committed but whose recovery failed.
- A mode change or a child restart in the middle of a switch: runs put them between switches.
- A child restart that reads the runtime file in the middle of a switch: only the record is proved consistent under that interleaving.
- DesiredState.DesiredStateStore.Load: returns the state itself; its projection to a snapshot for callers is a plain renaming of fields.
- Terminal interface, command line, onboarding, path discovery, diagnostics and installer: case analysis or input and output with few hard properties.
- Permission bits, secrets and redaction.
