# VirtInfra Monitor: verified models

Dafny models of six parts of the monitor, and proofs about them. `dafny verify dfyconfig.toml` checks the whole project.

## What is modelled

**Maintenance queue** (`Maintenance*.dfy`). `MaintenanceJobs` gives every transaction on the job table as a function of the table; `MaintenanceStore` carries out the same transactions in place, each against its function. `MaintenanceProtocol` lets web enqueuers, cancel buttons, any number of dispatchers, workers and retention runners interleave: every committed transaction, lock operation, unit check, unit start and process death is one step, the deletion of old job rows by retention included. Row locks are held at transaction granularity. The unique index `uq_maintenance_jobs_one_worker` (postgres/sql/007_safe_maintenance_queue.sql) is part of the table: a write that would make a second row active is refused, after which a purge goes on (app/maintenance.py swallows errors of its progress reports) and every other worker fails. What the environment does is kept out of the steps and named where a property needs it:

- `UnitsFromDispatcher`: a worker unit starts only for a start request that a dispatcher made, once per request.
- `SoundCheck`: recovery never condemns a stale `running` row whose unit still has a process. Two separate conditions imply it. `TruthfulCheck`: the unit check answers exactly whether the unit has a process. `FreshHeartbeats`: when a dispatcher takes its snapshot, the running row of a live worker has a heartbeat younger than 300 seconds. The worker unit is `Type=oneshot` (deploy/postgres/bw-monitor-maintenance@.service), so `systemctl is-active` can fail while a worker lives and the second condition is the one that carries the weight; with neither, a concrete run reaches a refused write.
- `ResetsExclusive`: resets are enqueued with `exclusive=True`.

The results on bodies, on entering once, on claim order and on the one active row assume none of these. Runs may begin with a row left active by processes that are gone; `started` in the protocol state is a history variable. Entry order and the drain need only that units come from the dispatcher. `MaintenanceDrain` shows that the rules never block for good: from every reachable state, one after a wrong unit check included, some continuation lets the live workers end their jobs and empties the queue.

**VM presence and migration** (`VmPresence*.dfy`). All presence steps act on the rows of one VM; `VmPresence` gives them as functions of those rows, `VmPresenceStore` as methods on flat tables with composite keys, whose loops may visit VMs in any order. `VmPresenceRuns` follows every run of pushes and purges and keeps, as history, the complete inventories of a node that lacked the VM since the node last reported it. `VmPresenceHistory` tells the counters, the open rows and the location from the pushes alone, without any stored row, and proves that the tables agree with it after every run. `VmPresenceBulk` is the set-based path that replaces the loops at the end of layer 37; it agrees with them except on a stored `missing_since` of 0.

**SQL compatibility scanners** (`Sql*.dfy`). One lexer turn (`SqlText`) is shared by the statement splitter and the question-mark translator. `SqlGrammar` states the same lexical structure independently, by printing literals, comments and dollar-quoted strings, and proves that the scanner reads back what is printed. The splitter, the translator, the percent escaper and the MAX/MIN rewriter are loops proved against functions, and the functions are proved right: unique decomposition, preservation of meaning under the adapter's reading, and a rewrite of expression trees, with the exact condition on the literals under which it is right (`SqlRewrites`).

**Node groups** (`NodeGroups*.dfy`) and **configuration restore** (`Configuration*.dfy`). Group operations, membership operations and the restore are functions of the tables, and methods that change the tables in place. `NodeGroupsHistory` runs everything that writes memberships: the administrative operations, pushes, lookups, the inventory trigger, the purge of a node and the restore of a backup. `NodeGroupsReplay` replays the membership history over such runs.

**Interface aggregation** (`InterfaceAggregates.dfy`). The one-pass accumulator, against a merge that is associative and commutative up to the order of the interface list.

**Buckets** (`ChartSampling.dfy`, `Consumption*.dfy`). Even sampling with exact round-half-even, and the rollup rebuild: the six upserts as loops, raw physical rows through buckets and local hours into the hourly table, and what the daily query makes of that table once both its halves are rebuilt (`ConsumptionDays.dfy`).

## What the proofs found

- At most one job row is active in every run, because of the unique index alone (`AtMostOneActive`). With an unreliable unit check and a heartbeat silent for 300 seconds, recovery can free a live worker's row, another job is claimed, and the worker's next unconditional progress write is refused, while its job executes on under a row that says it failed (`WriteRefusedIfCheckLies`). Where units come from the dispatcher the index refuses exactly such writes (`RefusedExactly`), and only after a unit check that took a live worker for dead (`RefusalNeedsUnsoundCheck`); with sound checks nothing is ever refused (`NothingRefused`).
- A finished row comes back in one way only: an unconditional progress write of its worker that the index does not refuse (`RevivedExactly`), which takes a unit check that called the live worker dead (`NothingRevived`).
- An unfinished reset stops being alone exactly by being enqueued without `exclusive` beside other work or by such a revival (`ResetAloneLostExactly`); its commit then deletes that other work (`ResetDestroysExactly`). The second happens even when every reset is exclusive: a condemned reset lets a vacuum into the queue, revives its own row and deletes the vacuum (`RevivedResetDestroys`).
- `missing_count` never over-counts but may under-count without bound: while only the old node pushes, any number of inventories lacking the VM counts once (`LoneAbsencesCountOnce`). It is short by exactly the inventories that arrive while an earlier one still stands, that is with no sighting by any node in between, or after the VM has moved away (`CountExactly`); a location moves exactly when the counted ones say so (`MovesExactly`).
- While the membership history replays to the memberships, a step breaks that exactly when it changes a membership without a history row (`ReplayKeptExactly`): a lookup or a listing that meets a node without a membership, a node that appears, a purge of a node, and a restore that moves a node. Where every known node has a membership, which the trigger and the migrations see to, only the last three are left (`FullReplays`), and each of them does break it (`AppearBreaksReplay`, `PurgeBreaksReplay`). Restoring the groups of any backup, one taken a moment before included, breaks it as soon as one node is outside the default group, because the groups get new ids (`RestoreBreaksReplay`).
- A restore loses mappings that are still waiting for their node, because they are not exported (`PendingSurvivesExactly`).
- A percent sign before `s`, `b`, `t`, `%`, a top-level `?` or a complete `%(name)s` form changes meaning, and nothing else does (`MeaningKeptExactly`). A percent before another `(` is harmless.
- The MAX/MIN pattern also matches inside string literals (`LiteralRewritten`). A rewrite is right if and only if no closed call with a comma of its own starts inside a literal (`TranslatesExactly`); other literals are harmless, those with an unclosed call or a call of one argument among them.
- Daily coverage made from hourly rows is short of what the day's buckets add up to exactly when an hour is covered for more than an hour and the day is not full (`HoursThenDays`).
- A daily row of a rebuild is the day of the raw rows only where nothing else is in the hourly table: guest rows and stored rows make days of their own, stored hours without raw rows add their traffic, and the push is the latest of all (`DailyRow`, `RawDayExactly`, `GuestHourMakesDay`).
- Rows of one push that share a key add up to less than the totals exactly when a row that counted something has a later row of its key (`StoredTotalsExactly`).
- Truncating SQL division and the floor division of `local_day_start` part exactly on negative local times off midnight (`DayStartsAgreeExactly`).

## Model

| member | source | states |
|---|---|---|
| MaintenanceStore.Store.EnqueueJob | app/maintenance_queue.py:62-142 | which of the four verdicts each table gives, the blocking row reported is the oldest, and an accepted job is one new queued row under the next id |
| MaintenanceStore.Store.CancelQueuedJob | app/maintenance_queue.py:145-165 | exactly a queued row is cancelled |
| MaintenanceStore.Store.RecoverStaleRows | app/maintenance_dispatch.py:29-83 | one undisturbed recovery: retired actions cancelled, then exactly the stale rows without a unit failed, all other rows unchanged |
| MaintenanceStore.Store.FailStale | app/maintenance_dispatch.py:58-83 | the loop over the snapshot decides each listed row by its own state and touches no other |
| MaintenanceStore.Store.ClaimNext | app/maintenance_dispatch.py:86-131 | a claim happens exactly when nothing is active and something is claimable, and takes the oldest |
| MaintenanceStore.Store.MarkStartError | app/maintenance_dispatch.py:134-148 | only a row still starting is failed |
| MaintenanceStore.Store.DispatcherMain | app/maintenance_dispatch.py:151-169 | recover, claim, and fail the claim again when the unit does not start; the exit code says which |
| MaintenanceStore.Store.UpdateRow | app/maintenance.py:143-182 | compare-and-swap or unconditional write: whether no row matches, the write is made or the unique index refuses it, what is written, and that no other row changes |
| MaintenanceStore.Store.ResetAppData | app/maintenance_native.py:376-400 | the reset commits exactly for an active reset row and leaves that row alone in the table |
| MaintenanceAlone.DispatcherAlone | app/maintenance_dispatch.py:29-131 | the interleaved dispatcher steps, undisturbed, compose to the dispatcher program |
| MaintenanceOnce.BodiesNeverOverlap | app/maintenance.py:911-975 | in every run, whatever unit checks answer and whoever starts units, two execute_action or run_retention bodies never overlap |
| MaintenanceOnce.EntersOnce | app/maintenance.py:944-975 | in every run each job id enters execute_action at most once |
| MaintenanceOnce.ClaimsIncrease | app/maintenance_dispatch.py:86-131 | in every run the claimed ids are strictly increasing |
| MaintenanceExclusion.AtMostOneActive | postgres/sql/007_safe_maintenance_queue.sql:28-30 | in every reachable state of every run at most one row is starting or running, whoever starts units and whatever unit checks answer |
| MaintenanceExclusion.RefusedExactly | app/maintenance.py:143-182 | in every run in which only the dispatcher starts units the index refuses a write if and only if it is a progress write over a row that is no longer active while another is |
| MaintenanceExclusion.InvStep | app/maintenance.py:944-985 | every step of a sound run keeps the invariant under which nothing is refused |
| MaintenanceExclusion.NothingRefused | app/maintenance_dispatch.py:29-131 | if units come from the dispatcher and recovery spares live workers, no write of a run is ever refused |
| MaintenanceExclusion.NothingRefusedIfChecksTruthful | app/maintenance_dispatch.py:16-26 | the same from an exact unit check alone |
| MaintenanceExclusion.RefusalNeedsUnsoundCheck | app/maintenance_dispatch.py:58-83 | every refused write comes after a unit check that took a live worker for dead |
| MaintenanceHeartbeats.NothingRefusedIfHeartbeatsFresh | app/maintenance.py:185-201 | nothing is refused with young heartbeats alone, whatever the unit check answers |
| MaintenanceHeartbeats.WriteRefusedIfCheckLies | app/maintenance_dispatch.py:58-83 | without either, a concrete run reaches a refused write of a worker that executes on |
| MaintenanceReset.RevivedExactly | app/maintenance.py:143-182 | a finished row becomes unfinished in a step if and only if a progress write of its own worker finds it finished and is not refused |
| MaintenanceReset.FinishedUntilRevived | app/maintenance.py:143-182 | in every run in which only the dispatcher starts units a finished row stays finished until such a write, and a deleted id never comes back |
| MaintenanceReset.NothingRevived | app/maintenance_dispatch.py:58-83 | if recovery also spares live workers, no row is ever revived |
| MaintenanceReset.ResetAloneLostExactly | app/maintenance_queue.py:76-127 | a step ends a reset's being alone if and only if it enqueues a reset, not exclusively, while a job is unfinished, or revives a row beside an unfinished one, one of the two a reset |
| MaintenanceReset.ResetAloneExactly | app/maintenance_queue.py:76-127 | in every run in which only the dispatcher starts units an unfinished reset is alone up to a point if and only if no step before it did either |
| MaintenanceReset.ResetAloneHolds | app/maintenance_queue.py:76-127 | an unfinished reset is the only unfinished job in every reachable state, if resets are exclusive, units come from the dispatcher and recovery spares live workers |
| MaintenanceRevival.RevivedResetDestroys | app/maintenance.py:841-853 | with every reset exclusive a concrete run revives a condemned reset beside a waiting job, and its commit deletes that job |
| MaintenanceReset.ResetDeletesOnlyFinished | app/maintenance_native.py:376-400 | until a reset is joined with other work or a row is revived beside one, the committed reset deletes finished rows only and leaves exactly its own |
| MaintenanceReset.ResetDestroysExactly | app/maintenance_native.py:376-400 | the reset destroys every other unfinished job, none if and only if it is alone |
| MaintenanceOrder.EntriesInOrder | app/maintenance.py:944-975 | in every run in which only the dispatcher starts units, whatever unit checks answer, jobs enter execute_action in ascending id order |
| MaintenanceProgress.DispatcherRunProgress | app/maintenance_dispatch.py:29-131 | with dead active rows 300 seconds old and a queued job, one dispatcher run ends every dead row and claims the oldest job, leaving the rest as it was |
| MaintenanceProgress.RoundsServeInOrder | app/maintenance_dispatch.py:86-169 | repeated claim and report serve exactly the waiting jobs, in id order |
| MaintenanceProgress.QueueDrains | app/maintenance_dispatch.py:151-169 | without new enqueues the steps that move an unfinished row are bounded by the work in the first table and one more for each revived row |
| MaintenanceProgress.NoRevivals | app/maintenance_dispatch.py:58-83 | if recovery spares live workers there are no revived rows |
| MaintenanceDrain.QueueCanEmpty | app/maintenance_dispatch.py:29-169 | from every reachable state with a real time stamp on its active row, one after a wrong unit check included, a continuation without new work in which no worker dies ends the job of every worker in its body or on its way there, runs every waiting job to its end, and leaves unfinished only what is asked to be cancelled |
| VmPresenceStore.Store.PresenceUpsertSeen | app/runtime_layers/02_common_formatting_inventory.py:394-442 | a sighting sets this VM's presence and inventory rows on this node and touches no other VM |
| VmPresenceStore.Store.MarkMissingOnNode | app/runtime_layers/02_common_formatting_inventory.py:445-465 | exactly the active and pending rows of the node that were not seen are marked |
| VmPresenceStore.Store.OldNodeMissingEnough | app/runtime_layers/02_common_formatting_inventory.py:468-482 | when a missing row is confirmable |
| VmPresenceStore.Store.CreateOrUpdateLocation | app/runtime_layers/02_common_formatting_inventory.py:485-580 | the location step of one VM: first placement, refresh, pending move or confirmed move, no other VM touched |
| VmPresenceStore.Store.ProcessNodeVmPresence | app/runtime_layers/02_common_formatting_inventory.py:583-597 | after one push every VM's rows are what the per-VM push makes of them, whatever the visiting order |
| VmPresenceStore.Store.AutoPurgeMigratedVms | app/runtime_layers/02_common_formatting_inventory.py:600-642 | at most 500 due rows are purged, all of them when fewer are due, and nothing else changes |
| VmPresenceStore.ViewsDetermineTables | app/runtime_layers/02_common_formatting_inventory.py:583-597 | the per-VM rows determine all tables, events up to their interleaving |
| VmPresenceStore.ChainView | app/runtime_layers/02_common_formatting_inventory.py:583-597 | after any sequence of per-VM turns each visited VM has had its turn applied once and no other VM changed |
| VmPresenceStore.VisitOrderIrrelevant | app/runtime_layers/02_common_formatting_inventory.py:583-597 | two visits of the same VMs in different orders leave the same tables |
| VmPresenceRuns.HonestyHolds | app/runtime_layers/02_common_formatting_inventory.py:445-460 | over every run missing_count is at most the complete inventories that lacked the VM since its last sighting, and missing_since is one of them |
| VmPresenceRuns.InvHolds | app/runtime_layers/02_common_formatting_inventory.py:485-642 | over every run the home row is active, pending or missing, inventory mirrors presence, and events never outnumber moves |
| VmPresenceRuns.CompletePushDecides | app/runtime_layers/02_common_formatting_inventory.py:583-597 | after a complete push the row on that node is active or pending exactly when the push contained the VM |
| VmPresenceRuns.MoveCountExact | app/runtime_layers/02_common_formatting_inventory.py:550-580 | move_count is exactly the number of location changes of the run |
| VmPresenceRuns.HiddenStaysHidden | app/runtime_layers/02_common_formatting_inventory.py:394-442 | a hidden inventory row stays hidden under pushes and purges |
| VmPresenceRuns.MoveJustified | app/runtime_layers/02_common_formatting_inventory.py:468-580 | a location moves only to the pushing node that saw the VM, and only after enough or old enough complete inventories of the old node that lacked it since its last sighting |
| VmPresenceRuns.MoveExactly | app/runtime_layers/02_common_formatting_inventory.py:468-482 | the exact condition on the tables under which a push moves the location |
| VmPresenceRuns.PendingNeedsOldNode | app/runtime_layers/02_common_formatting_inventory.py:485-580 | a row flagged pending cannot confirm the move before its own node pushes again |
| VmPresenceRuns.LoneAbsencesCountOnce | app/runtime_layers/02_common_formatting_inventory.py:445-465 | while only the old node pushes, any number of absences counts once |
| VmPresenceHistory.TablesTellHistory | app/runtime_layers/02_common_formatting_inventory.py:394-597 | after every run the location, the counters, missing_since and which rows are active or pending are those told from the pushes alone |
| VmPresenceHistory.CountedOrSkipped | app/runtime_layers/02_common_formatting_inventory.py:445-465 | every complete inventory without the VM since its last sighting there is either counted or skipped |
| VmPresenceHistory.CountExactly | app/runtime_layers/02_common_formatting_inventory.py:445-465 | over every run missing_count and the skipped inventories add up to all that lacked the VM, so missing_count is exact if and only if none was skipped; missing_since is the first counted time that is not 0 |
| VmPresenceHistory.MovesExactly | app/runtime_layers/02_common_formatting_inventory.py:468-580 | over every run a push moves the location if and only if another node reports the VM, the last word on it is a complete inventory of its place without it, and the counted inventories are enough or old enough |
| VmPresenceBulk.ProcessNodeVmPresenceBulk | app/runtime_layers/37_native_copy_ingest.py:903-1028 | the set-based push, per VM |
| VmPresenceBulk.BulkAgreesExactly | app/runtime_layers/37_native_copy_ingest.py:903-1028 | it agrees with the loops if and only if no absent VM's row stores missing_since 0 |
| VmPresenceBulk.BulkRefinesLoops | app/runtime_layers/37_native_copy_ingest.py:903-1028 | over every run with real time stamps both paths give the same rows |
| VmPresenceBulk.BulkPartsOnZero | app/runtime_layers/37_native_copy_ingest.py:960-1005 | a concrete run with a time stamp of 0 on which they part |
| VmPresenceBulk.PushDeterminesTables | app/runtime_layers/37_native_copy_ingest.py:903-1028 | either path in any order leaves the same tables when no row stores 0 |
| SqlGrammar.SegmentIsUnit | app/bw_pg.py:201-311 | the scanner reads a printed literal, comment or dollar-quoted string as one unit and is back at top level exactly at its end |
| SqlSplit.SplitSqlScript | app/bw_pg.py:201-270 | the loop returns the trimmed non-empty pieces |
| SqlSplit.PiecesRebuild | app/bw_pg.py:201-270 | for any script the untrimmed pieces joined by semicolons are the script |
| SqlSplit.PiecesUnique | app/bw_pg.py:201-270 | they are the one list of whole pieces, all but the last ending at top level, whose join is the script |
| SqlSplit.SplitOfJoin | app/bw_pg.py:201-270 | splitting the join of trimmed, whole statements that end at top level gives them back |
| SqlSplit.PiecesAppend | app/bw_pg.py:875-878 | what follows a statement that ends at top level does not change how it is split |
| SqlSplit.PiecesOfSegments | app/bw_pg.py:201-270 | a script printed from segments is cut at exactly the semicolons that are segments of their own |
| SqlPlaceholders.QmarksToPsycopg | app/bw_pg.py:273-311 | the loop computes the translation |
| SqlPlaceholders.EscapePsycopgPercent | app/bw_pg.py:319-348 | the loop computes the escaping |
| SqlPlaceholders.QmarksOfSegments | app/bw_pg.py:273-311 | exactly the question marks that are segments of their own are replaced |
| SqlPlaceholders.QmarksTwice | app/bw_pg.py:273-311 | translating twice changes nothing more |
| SqlPlaceholders.EscapedIsComplete | app/bw_pg.py:319-348 | every percent of an escaped text starts a complete token, and escaping twice changes nothing more |
| SqlPlaceholders.NameTransfers | app/bw_pg.py:273-348 | the first pass neither makes nor breaks a named parameter |
| SqlPlaceholders.MeaningKeptExactly | app/bw_pg.py:273-348 | the adapter reads top-level question marks as parameters and everything else literally if and only if no percent clashes with what follows it |
| SqlPlaceholders.PatternTakenForParameter | app/bw_pg.py:319-348 | a quoted pattern that starts with %s is misread |
| SqlMinMax.TranslateScalarMinmax | app/bw_pg.py:351-406 | the outer loop ends, on a decreasing count, with the rewritten text |
| SqlMinMax.RenameFirst | app/bw_pg.py:358-406 | one round renames the first closed call with a comma of its own, if there is one |
| SqlMinMax.WalkCall | app/bw_pg.py:362-392 | the walk to the closing parenthesis and the comma it notes |
| SqlMinMax.ScanExpr | app/bw_pg.py:362-392 | over a printed expression the walk notes exactly the commas at the depth of the call |
| SqlMinMax.RoundPrint | app/bw_pg.py:351-406 | a round on a printed tree prints the tree with its first scalar call renamed |
| SqlRewrites.ReadsRenamed | app/bw_pg.py:351-406 | the renamed tree is again read from its text |
| SqlRewrites.QuietRenamed | app/bw_pg.py:357-392 | a round neither quiets nor disturbs a literal |
| SqlRewrites.TranslatesTree | app/bw_pg.py:351-406 | translating a printed tree with quiet literals prints the tree with every MAX or MIN of two or more arguments, at any depth, renamed and one-argument aggregates untouched |
| SqlRewrites.NothingLeft | app/bw_pg.py:351-406 | no scalar call is left in any translated text, so translating again changes nothing |
| SqlRewrites.TranslatesExactly | app/bw_pg.py:351-406 | for every readable tree the rewrite is right if and only if no closed call with a comma of its own starts inside a literal |
| SqlRewrites.LiteralKeptExactly | app/bw_pg.py:357-392 | a literal alone is left as it is if and only if no such call starts inside it |
| SqlRewrites.LiteralRewritten | app/bw_pg.py:357-364 | a concrete literal with such a call is rewritten |
| NodeGroupsStore.Store.CreateGroup | app/node_groups.py:1384-1411 | reserved, blank, long or taken names are refused; otherwise one new active group and one history row |
| NodeGroupsStore.Store.UpdateGroup | app/node_groups.py:1414-1442 | the checks in their order, and the new table |
| NodeGroupsStore.Store.ActOnGroup | app/node_groups.py:1445-1472 | hide, restore and delete, with the refusal of an occupied group |
| NodeGroupsStore.Store.AssignNodes | app/node_groups.py:543-600 | the loop makes the assignment, and changed is assigned plus moved plus removed and the number of rows written, each counter the rows of its event |
| NodeGroupsStore.Store.AssignNode | app/node_groups.py:561-586 | one turn of that loop |
| NodeGroupsStore.Store.BulkAssign | app/node_groups.py:2843-2857 | the bulk form's refusals and its assignment |
| NodeGroupsStore.Store.MoveAllUngrouped | app/node_groups.py:2846-2857 | exactly the nodes of the group move to the default group, and the emptied group can then be deleted |
| NodeGroupsStore.Store.EnsureNode | app/node_groups.py:494-519 | a known node without a group gets the default one, recorded |
| NodeGroupsStore.Store.LookUpNode | app/node_groups.py:466-491 | the group returned, and the unrecorded default membership |
| NodeGroupsStore.Store.NodeAppears | postgres/sql/016_configuration_backup_nuclear.sql:30-83 | the trigger: a waiting mapping that names a group is honoured, else the default group, and the mapping is used up |
| NodeGroups.CreateKeeps | app/node_groups.py:1384-1411 | members point to existing groups, exactly one default group, active, names unique in lower case |
| NodeGroups.UpdateKeeps | app/node_groups.py:1414-1442 | the same invariant |
| NodeGroups.ActKeeps | app/node_groups.py:1445-1472 | the same invariant |
| NodeGroupsHistory.ApplyKeeps | app/node_groups.py:466-600 | every step that writes memberships keeps the invariant, purges and restores included |
| NodeGroupsHistory.AssignAllIs | app/node_groups.py:561-586 | the loop gives every known node the group, records each change once with the group the node had, and changes nothing else |
| NodeGroupsHistory.RowsTellTheChange | app/node_groups.py:527-536 | a membership row names the group just before and the one now, and they differ |
| NodeGroupsReplay.ReplayOfRun | app/node_groups.py:527-600 | over every run the history replays to the last recorded groups, and is wrong for exactly the nodes that a step changed silently since, unless it gave them back their recorded group |
| NodeGroupsReplay.ReplayExactly | app/node_groups.py:466-600 | it replays to the memberships if and only if there is no such node |
| NodeGroupsReplay.SilentExactly | app/configuration_backup.py:424-495 | for each kind of step the condition on its input under which it changes no membership without a row; for a restore of groups that every member is in the default group and no mapping of a known node names a usable group, for one of mappings alone that each names the group its node is in |
| NodeGroupsReplay.ReplayKeptExactly | app/node_groups.py:466-600 | a step from a state whose history replays to its memberships leaves such a state if and only if that condition holds |
| NodeGroupsReplay.AdministrationReplays | app/node_groups.py:527-600 | create, update, hide, restore, delete, assign, bulk moves and pushes replay exactly |
| NodeGroupsReplay.FullReplays | postgres/sql/012_node_groups_r6_safety.sql:25-63 | while every known node has a membership, every run in which no node appears or is purged and no backup is restored replays exactly, lookups and listings included |
| NodeGroupsReplay.AppearBreaksReplay | postgres/sql/016_configuration_backup_nuclear.sql:30-83 | a node that appears breaks the replay |
| NodeGroupsReplay.PurgeBreaksReplay | app/runtime_layers/09_admin_routes.py:1020-1050 | a purge of a node with a group breaks the replay |
| NodeGroupsReplay.RestoreBreaksReplay | app/configuration_backup.py:424-463 | assigning a node to a group and restoring the groups of any backup breaks the replay |
| NodeGroupsReplay.MembersOnlyGrow | app/node_groups.py:466-600 | only a purge of the node itself takes a membership away |
| NodeGroupsHistory.EmptiedCanBeDeleted | app/node_groups.py:1457-1462 | a group whose nodes were moved to the default group can be deleted |
| NodeGroupsHistory.HideHidesItsNodes | app/node_groups.py:355-376 | hiding a group hides its nodes from monitoring and no other |
| NodeGroupsHistory.RestoreUndoesHide | app/node_groups.py:1463-1466 | restoring undoes hiding, but for the history |
| ConfigurationStore.Store.Restore | app/configuration_backup.py:341-508 | all selected sections are restored, or nothing changes |
| ConfigurationStore.Store.RestoreUserSection | app/configuration_backup.py:363-386 | the loop over accounts |
| ConfigurationStore.Store.RestoreKeySection | app/configuration_backup.py:388-409 | the loop over keys, failing on a key listed twice |
| ConfigurationStore.Store.RestoreSettingSection | app/configuration_backup.py:411-422 | the loop over settings |
| ConfigurationStore.Store.RestoreGroupSection | app/configuration_backup.py:424-463 | the default group receives every node, other groups are replaced |
| ConfigurationStore.Store.RestoreMappingSection | app/configuration_backup.py:468-495 | the loop over mappings |
| ConfigurationRestore.RoundTrip | app/configuration_backup.py:111-159 | an export restored into its own state brings back accounts, keys up to use counters and settings up to the session secret |
| ConfigurationRestore.GroupComesBack | app/configuration_backup.py:442-463 | every group comes back under its name, its country code in upper case |
| ConfigurationRestore.NoGroupAppears | app/configuration_backup.py:442-463 | and no other group does |
| ConfigurationRestore.MemberComesBack | app/configuration_backup.py:468-495 | every node is back in the group of the same name |
| ConfigurationRestore.NoMemberAppears | app/configuration_backup.py:468-495 | and no node gains a membership |
| ConfigurationRestore.PendingSurvivesExactly | app/configuration_backup.py:468-469 | waiting mappings survive a round trip if and only if there are none |
| ConfigurationRestore.PutMappingsAt | app/configuration_backup.py:468-495 | for any payload each node's last usable mapping is applied or kept waiting by whether the node exists, other nodes stay |
| ConfigurationRestore.PutGroupsKeeps | app/configuration_backup.py:442-463 | for any payload the group invariant holds and the groups are exactly the usable names |
| ConfigurationRestore.NodesLand | app/configuration_backup.py:424-495 | into any state every mapped known node is in its group, every other member in the default group, every mapping of an unknown node waits |
| ConfigurationRestore.PendingHonoured | postgres/sql/016_configuration_backup_nuclear.sql:30-83 | a waiting mapping puts its node into the restored group when the node appears |
| ConfigurationRestore.ActorAndUnselected | app/configuration_backup.py:327-386 | whoever restores stays an active super admin, and sections not selected are not touched |
| ConfigurationRestore.RestoreKeeps | app/configuration_backup.py:424-495 | a restore keeps the node group invariant |
| InterfaceAggregates.Aggregate | app/storage_v2.py:144-261 | the pass returns the raw rows in order and per VM the totals of its rows |
| InterfaceAggregates.AddInterface | app/storage_v2.py:207-259 | the in-place update of a VM's record is the merge with that interface |
| InterfaceAggregates.PeaksAboveAverages | app/storage_v2.py:170-193 | averages are bytes and packets over the interval and no peak is below its average |
| InterfaceAggregates.TotalOfConcatenation | app/storage_v2.py:207-259 | the totals of a concatenation are the merge of the totals |
| InterfaceAggregates.TotalOfPermutation | app/storage_v2.py:207-259 | the order of the rows shows only in the interface list |
| InterfaceAggregates.TotalsAreSums | app/storage_v2.py:235-248 | packet totals are sums over the rows, per bridge over the rows of that role |
| InterfaceAggregates.WorstIsKept | app/storage_v2.py:251-253 | quality and gap are those of a worst row |
| InterfaceAggregates.PayloadInParts | app/storage_v2.py:144-261 | a payload in two parts gives every VM the merge of what the parts give |
| InterfaceAggregates.PayloadInAnyOrder | app/storage_v2.py:144-261 | permuting the payload changes no total |
| InterfaceAggregates.StoredTotalsExactly | app/storage_v2.py:285-299 | the stored rows add up to the totals if and only if every row of the push that has a later row of its key counted nothing |
| InterfaceAggregates.UniqueAllStored | app/storage_v2.py:285-299 | with distinct keys every row is stored |
| ChartSampling.SampleRealBuckets | app/runtime_layers/04_charts_vm.py:112-126 | the loop chooses the sampled buckets, for any list and bound |
| ChartSampling.SampleIsSpread | app/runtime_layers/04_charts_vm.py:112-126 | for increasing buckets the list is increasing, ends with the last and from two points on begins with the first, has the number of points asked for, and when some are left out the gaps are the step rounded down or up |
| ChartSampling.RoundNearest | app/runtime_layers/04_charts_vm.py:122 | rounding gives the one nearest integer, the even one of two |
| ChartSampling.EvenlySpread | app/runtime_layers/04_charts_vm.py:119-125 | the first and last bucket are chosen and consecutive indices differ by the step rounded down or up |
| ChartSampling.IndicesIncrease | app/runtime_layers/04_charts_vm.py:119-125 | no two points share a bucket |
| ChartSampling.CleanedIncreasing | app/runtime_layers/04_charts_vm.py:114 | increasing positive buckets pass the filter unchanged |
| ConsumptionRollup.DayOfHour | app/consumption_rollup.py:131-147 | the local day of a local hour is that of every moment in it, for any offset |
| ConsumptionRollup.DayStartsAgreeExactly | app/consumption_rollup.py:23-24 | SQL and program agree on the start of a day if and only if the local time is not negative or is midnight |
| ConsumptionRollup.HoursThenDays | app/consumption_rollup.py:131-217 | grouping buckets by capped local hours and then by local days gives the days of a daily grouping with the same traffic, samples and push time, and the same coverage if and only if the capped hours fill the day or no hour of it is overfull |
| ConsumptionRollup.HoursKeepFlow | app/consumption_rollup.py:131-147 | the rows of the hourly query carry per local day the traffic and latest push of the raw rows of that day |
| ConsumptionDays.DailyQuery | app/consumption_rollup.py:199-217 | what the daily query finds in the rebuilt hourly table: raw hours and stored hours without raw rows added up and capped, and the latest push of raw, guest and stored rows |
| ConsumptionDays.DailyRow | app/consumption_rollup.py:199-269 | the physical half of a daily row is written if and only if the rebuilt hourly table has a row of that day since the first day, with those columns; else it stays; the push is the latest of the hours, the stored day and the day's guests |
| ConsumptionDays.RawDayExactly | app/consumption_rollup.py:131-217 | the daily query finds the traffic and latest push of the day's raw rows if and only if nothing beside the raw hours shows: no traffic in stored hours without raw rows, no later push in stored or guest rows, and without raw rows no row at all |
| ConsumptionDays.RecentByClock | app/consumption_rollup.py:34-40 | with the program's bounds the hour of every raw row is among the hours since the first day |
| ConsumptionDays.GuestHourMakesDay | app/consumption_rollup.py:167-217 | a guest hour without any raw row makes the daily query find a day |
| ConsumptionRollup.WriteRows | app/consumption_rollup.py:49-269 | the loop over the rows of a query updates the row of each key or inserts one |
| ConsumptionRollup.Store.Backfill | app/consumption_rollup.py:49-269 | the six upserts, each a loop over its query's rows, leave the rebuilt tables |
| ConsumptionRollup.BackfillTwice | app/consumption_rollup.py:49-269 | at one clock and with the same sources a second rebuild changes nothing |
| ConsumptionRollup.UpsertAllLeaves | app/consumption_rollup.py:125-196 | a rebuild changes no row outside its query and no column of the other half |

## Left out

- Message texts, unit names, parameters and requesters of maintenance jobs: a unit is identified by its job id.
- The fallback path of the worker lock file, and the timed waits on it: all processes contend for one lock.
- The legacy enqueue of app/runtime_layers/05_system_maintenance.py, which starts units directly.
- The bodies of execute_action and run_retention, apart from their progress writes, the reset of the job table and the deletion of old job rows by retention.
- MaintenanceExclusion.NothingRefused: assumes that units are started only by the dispatcher and that recovery spares live workers; without the second a concrete run breaks it.
- MaintenanceDrain.QueueCanEmpty: shows that the queue can always be emptied, not that it will be; in the continuation it gives, live workers finish, while dispatchers and retention runs are cut short.
- MaintenanceProgress.DispatcherRunProgress: needs real time stamps, because the program reads a stamp of 0 as missing.
- VmPresenceRuns.MoveJustified: when the first absence was stamped 0 it guarantees that some absence, not the first, is old enough, because the program reads a stored 0 as missing.
- The deletes from vm_latest_metrics and node_stats on purge, and alert texts; VM identifiers arrive trimmed.
- SqlPlaceholders.MeaningKeptExactly: the adapter's reading of a query is the one the escaper's comment describes; the adapter itself is not part of this model. Named parameters in the :name style are left out.
- SqlRewrites.TranslatesTree: word boundaries and letter case are those of ASCII letters, digits and the underscore; NULL semantics of the renamed functions is left out.
- SqlRewrites.TranslatesExactly: comments are ordinary text to the rewriter, so a tree reads a quote inside a comment as the start of a literal, as the program does.
- SqlSplit.SplitOfJoin: assumes trimmed statements; the untrimmed law is PiecesUnique.
- Connection handling, COPY, table creation and the pattern-based rewrites of app/bw_pg.py.
- NodeGroups.CreateKeeps: names are compared by lower-casing ASCII letters; texts arrive trimmed and country codes cleaned.
- Creating the default group when none exists, which the schema set-up does before any of these operations.
- The check before a group action and the action itself are one step; the source reads the group once more inside its transaction.
- The reset of all data, which empties groups, memberships and their history together, and roles, sessions and group pages.
- ConfigurationRestore.RoundTrip: accounts and keys have no ids and time stamps here, and stored accounts, keys and group names are assumed to pass the filters of the restore.
- The returned counts of a restore, and the archive, checksum and protection of backups.
- InterfaceAggregates.TotalOfConcatenation: rates are exact reals, where the program adds floating-point numbers.
- Parsing of payload values into numbers: the model takes numbers, negative ones included.
- ChartSampling.RoundNearest: the quotient is exact, where the program divides floating-point numbers; negative bounds are left out.
- ConsumptionRollup.BackfillTwice: the rows that the compacting queries find are given, except the hourly physical rows, which are computed from raw rows, and the daily physical rows, which are computed from the hourly ones; duplicated coverage columns are one column.
- Conservation between raw readings and the first physical hour of a rebuild, which the raw cutoff may cut short.
- Other runtime layers, the abuse engine, Top VM queries, targeted purges and benchmark tools.
