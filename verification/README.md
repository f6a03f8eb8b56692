# walshadow, verified

A Dafny model of the parts of walshadow that decide whether the destination tells the
truth: walshadow follows a PostgreSQL source through its physical WAL and keeps
ClickHouse tables in step with it. Each module models one protocol and proves what it
promises over every run, every history or every input.

| module | models |
|---|---|
| `Budget`, `BudgetPool` | the memory budget: a pool with an admission compartment and a turn gate for large values; conservation, progress of leaf waiters, the objects |
| `GateCell` | the monotone position cell and its waiters |
| `FuzzyBackup` | an initial load from a page walk, hint bits, transaction logs and WAL, one destination key at a time |
| `GapReplay`, `ReplayLeg`, `ReplayExact`, `ReplayRisk` | replay of archived WAL between backup and opt-in, with checkpoints, crashes and resumes; which logs it can lose a row of |
| `InitialLoad`, `PublishedLoad` | the two together: any run of the replay, any instants of the walk; and then published |
| `Staging`, `StagingSession` | publication through a staging table, `EXCHANGE TABLES`, copy-back and a ledger |
| `Prescan` | the catalog sweep of the gap |
| `CatalogVisibility`, `CatalogScan`, `CatalogReads` | what the PostgreSQL extension reads from catalog heaps: one row, one scan, a scan of many rows |
| `Segments` | segment names covering a byte range, and the timeline whose file has the bytes |
| `Routing`, `RoutingResolver` | the layered resolver and its two published views |
| `RoutingRules`, `RuledRouting` | the resolver's rules built from the file and the runtime rows, and what they make of the tables |
| `RoutedSchema` | published columns through any run of the resolver, any chain of ALTERs and any change of column rules |
| `RankedRules` | ranked table and column rules |
| `SchemaFold` | folding ALTER TABLE into a column mapping |
| `ConfigOverlay` | the runtime config overlay |
| `ConnCache` | the per-instance connection cache |
| `WaitSet` | the extension worker's serve loop |
| `Basics`, `Sums` | options, sums over sequences |

A protocol is a state, a total `Next(state, step)` in which a step that does not apply
changes nothing, and `Exec` over a sequence of steps; the theorems quantify over every
such sequence. Code that updates objects in place is also a class whose methods are
proved equal to those steps. Crashes, failed statements, lost replies, page instants,
hint bits, missing subtransaction records and the order of hash-map iteration are all
inputs of the model, chosen freely.

## What does not hold, and exactly when it does

Each is proved with the case that fails, and with the exact condition, in both directions.

- A leaf acquire depends only on other leaf holders if and only if the two shares,
  rounded up to units separately, still fit the rounded pool
  (`Budget.LeafProgressIffReserved`). The comment at src/budget.rs:26-37 promises it of
  every reserve.
- A walked row whose deleter has neither committed nor aborted is withheld, so the
  destination lacks a row the source still shows, for exactly as long as that
  transaction stays open (`FuzzyBackup.LoadConverges`, `OpenDeleteWithholdsRow`).
- A gap-replay checkpoint taken with nothing buffered, at a boundary that the first
  write of a transaction straddles, makes a resume skip that write; it is never shipped
  again (`GapReplay.CheckpointSafeIff`, `OrphanIsLostForever`, `StraddledRowLost`). The
  logs this can happen on are characterised from their records alone: some sequence of
  boundaries, each reached from where the one before resumes, ends at a boundary with
  nothing open and a due write across it (`ReplayRisk.CompleteIffNoRisk`). Resuming
  behind a boundary that is not idle counts too: it may leave an older write out of the
  next leg and so make an earlier boundary idle (`DetourLoses`).
- A commit at or below the opt-in whose record runs past the last fetched segment is
  replayed by no run (`GapReplay.TailCommitNeverReplayed`, `TailRowMissing`); a run
  that orphans nothing delivers every other row of the gap (`GapDelivered`).
- The header at src/backfill/backup_backfill.rs:37-42 promises that the pre-scan aborts on
  every new pg_class or pg_attribute row of a filtered relation. Multi-insert records of
  the second heap resource manager are not looked at, and a clean verdict rules such rows
  out exactly when none of those carries one (`Prescan.CleanIsUntouchedIff`); ADD COLUMN is
  the example (`AddColumnPasses`). A pg_class row is compared with the filenode current at
  the opt-in, so a relation rewritten once in the gap passes as well (`RewritePasses`).
  Under a clean verdict storage and shape are those of the backup if and only if the backup
  has the current filenode and no multi-insert alters the relation (`CleanKeepsRelationIff`).
- The comment at src/backfill/copy_backfill.rs:1682-1685 reads a missing staging table as
  "copy-back and drop ran". A resume that discards a load also drops it, before clearing
  the mark: a crash or a failed ledger write in between lets the next boot record the
  load as done although it was never published (`Staging.UntidyDiscardMarksDone`), and
  "done" means published in every continuation exactly without those two
  (`DoneMeansPublishedIff`).
- An `EXCHANGE` the server applies after its client gave up is harmless exactly while the
  ledger still names the table under the staging name and no resume has decided to
  exchange again (`Staging.SafeForeverIff`, `LateExchangeIsFound`). Otherwise it swaps the
  load back out, or publishes the next load half done (`LateExchangeUnpublishes`,
  `LateExchangePublishesNextLoad`). `RunSafeForeverIff` states both conditions over whole runs.
- Publishing keeps the destination's shape exactly when no ALTER falls between a passed
  shape gate and its exchange; nothing locks the table there (`Staging.PublishingKeepsShapeIff`,
  `AlterSlipsBy`).
- An excluded relation stays routed exactly when a connection default or another relation
  lies outside the reserved destinations at that moment; one stray opt-in is enough
  (`Routing.ExcludedStaysRoutedIff`, `OffenderPinsOthers`, `StrayOptInOffends`). At the
  end of any run the two views agree if and only if its last accepted update found a watch
  receiver or brought the tables back to what was last sent (`ViewsAgreeIff`); an exclusion
  accepted while nobody listens is the case that fails (`DeafExclusionDiverges`,
  `SmallRunDiverges`).
- A request that names an oid twice is scanned twice on the keyed path and once on the
  lock-free one (`CatalogScan.PathsAgreeIffDistinct`).
- The resume filter's 64-bit sum wraps for the last segment of the position space
  (`Segments.ResumeKeepsSuffixIff`, `TopSegmentIsDropped`).
- An UPDATE of a config row's key, and a TRUNCATE of a non-empty config table, leave
  stale overlay rows (`ConfigOverlay.StepEqualIff`, `MovedRowLingers`, `EmptiedRowLingers`).
  Over a whole log the overlay ends as the source exactly when every key so lost is
  written again later (`ReplayEqualsSourceIff`); with a boot SELECT, also when such a key
  was neither selected nor named by a replayed write (`BootConvergesIff`).
- The folded column mapping falls behind a fresh derivation in two cases, and no others
  (`SchemaFold.FoldEqualsDerivationIff`): a column rule that renames a column, and a later
  rename of the source column (`RenamedUnderRuleLags`); a column whose type loses or gains
  a destination type (`UnmappedTypeLags`, `MappedTypeLags`).
- A reload that changes the file's column rules leaves the mapped names as they are. Along a
  run the published mapping has the derived names if and only if every ALTER is one the fold
  follows and every reload names the mapped columns as before
  (`RoutedSchema.NamesStayDerivedIff`, `RuleReloadLags`).

## Model

| member | source | states |
|---|---|---|
| `Budget.UnitsFor` | src/budget.rs:348-350 | bytes fit in that many units and in no fewer |
| `Budget.RunsConserve` | src/budget.rs:152-302 | over every run of acquire, admit, try_admit, grants, shrinks and drops: free plus held units equal the pool, the compartment and the gate, and the byte count equals the permits |
| `Budget.NextKeepsInv` | src/budget.rs:170-302 | every action of every task keeps the accounting |
| `Budget.ShrunkOk` | src/budget.rs:261-286 | a shrunk permit still satisfies every permit rule: units for its bytes, admission within units, gate only above the reserve |
| `Budget.ResidentBound` | src/budget.rs:39-44 | over every run resident bytes stay within the rounded pool plus the excess of large values and the unmetered permits, and at most one leaf value is larger than the reserve |
| `Budget.DroppingAllRestoresInit` | src/budget.rs:289-302 | after any run with nothing queued, dropping every permit gives back the initial state |
| `Budget.HeadNeedsOnlyLeaves` | src/budget.rs:26-37 | with a reserved share the head of the pool queue waits for leaf holders only |
| `Budget.LeafProgressIffReserved` | src/budget.rs:26-37 | leaf waiters depend only on leaf holders if and only if the rounded shares fit the rounded pool |
| `Budget.UnreservedLeafStarves` | src/budget.rs:92-113 | otherwise a four-step run leaves a leaf waiting on an admission with no leaf holder |
| `Budget.AlignedReserveSuffices` | src/budget.rs:92-113 | a reserve that is a whole number of units always fits |
| `Budget.PendingLeavesAlwaysServable` | src/budget.rs:152-182 | from any reachable state the queued leaves can all be served by drops of leaf permits alone |
| `Budget.LeafOnlyKeepsAdmissions` | src/budget.rs:152-182 | and doing so touches no admission |
| `Budget.LeafOnlyPoolProgress` | src/budget.rs:92-113 | a pool built without a reserve, used by leaves only, serves its head once no leaf is held |
| `Budget.PoolServesInOrder` | src/budget.rs:152-162 | over every run nobody overtakes in the pool queue |
| `Budget.NewcomerWaits` | src/budget.rs:152-162 | while anyone waits for the pool a request that needs units joins the end |
| `Budget.AdmitterWaits` | src/budget.rs:190-213 | while anyone waits for the compartment an admission waits behind them and try_admit gives up |
| `BudgetPool.MemoryPermit.Lower` | src/budget.rs:261-286 | the permit fields after shrink, and what goes back to each semaphore |
| `BudgetPool.MemoryBudget.constructor` | src/budget.rs:92-113 | a fresh budget is the initial state of its configuration |
| `BudgetPool.MemoryBudget.NewPermit` | src/budget.rs:215-225 | a permit is accounted when it is made |
| `BudgetPool.MemoryBudget.Acquire` | src/budget.rs:170-182 | acquire is the acquire step of the machine |
| `BudgetPool.MemoryBudget.Admit` | src/budget.rs:190-199 | admit is the admit step; only a request above the compartment passes unmetered |
| `BudgetPool.MemoryBudget.TryAdmit` | src/budget.rs:202-213 | try_admit takes both compartments or neither |
| `BudgetPool.MemoryBudget.GateGranted` | src/budget.rs:170-176 | a large value's turn is the gate-grant step |
| `BudgetPool.MemoryBudget.AdmissionGranted` | src/budget.rs:152-162 | serving the longest waiting admission is the admission-grant step |
| `BudgetPool.MemoryBudget.AskPool` | src/budget.rs:176-181 | a request past its first semaphore is served at once or joins the end of the pool queue |
| `BudgetPool.MemoryBudget.PoolGranted` | src/budget.rs:152-162 | the head of the pool queue is served exactly when its units are free |
| `BudgetPool.MemoryBudget.Shrink` | src/budget.rs:261-286 | shrink is the shrink step |
| `BudgetPool.MemoryBudget.Drop` | src/budget.rs:289-302 | drop is the drop step and forgets the permit |
| `GateCell.Monotone.AdvanceTo` | src/pos.rs:251-259 | the cell only moves forward and signals only when it moves |
| `GateCell.Monotone.Rebase` | src/pos.rs:266-269 | a rebase replaces the value and always signals |
| `GateCell.Monotone.Bump` | src/pos.rs:289-293 | a bump adds one |
| `GateCell.NoLostWakeup` | src/pos.rs:334-352 | in every interleaving a parked waiter whose target is covered has an unseen version pending |
| `GateCell.ClosedCellFreesEveryWaiter` | src/pos.rs:342-352 | once the cell is closed every parked waiter resolves: with the final value if it covers the target, else with the error |
| `GateCell.ParksOnWhatItSaw` | src/pos.rs:342-352 | a waiter parks on the version it has seen, so only a later signal wakes it |
| `GateCell.CellIsMaximum` | src/pos.rs:251-287 | without rebase the cell is the maximum of everything joined |
| `GateCell.OnlyRebaseOrWrapLowers` | src/pos.rs:266-293 | one step lowers the cell if and only if it is a rebase to less, or a bump at the top |
| `GateCell.AdvanceMovesPastSeen` | src/pos.rs:356-358 | waiting past a seen position returns a later one, unless nothing is later |
| `FuzzyBackup.LoadConverges` | src/backfill/backup_backfill.rs:119-120 | for every history, every page instant past redo and every sound hint and log, the destination settles on exactly the source row of a key, deletes included, if and only if no undecided delete withholds it |
| `FuzzyBackup.SettledHistoryConverges` | src/backfill/backup_backfill.rs:243-252 | once every writer of the key has ended the load has converged, with tag min(redo, S) or S |
| `FuzzyBackup.TagIsTight` | src/backfill/backup_backfill.rs:243-252 | walked rows lose to every commit WAL must deliver, and at no higher tag would they |
| `FuzzyBackup.NewerDeliveryConverges` | src/backfill/backup_backfill.rs:246-252 | a commit past the tag outranks every walked row |
| `FuzzyBackup.OlderDeliveryConverges` | src/backfill/backup_backfill.rs:454-461 | a re-delivered commit at or below the tag agrees with the walked row |
| `FuzzyBackup.WalkedConverges` | src/backfill/backup_backfill.rs:119-120 | without WAL the walk ships the committed row or nothing |
| `FuzzyBackup.SupersededIsStamped` | src/decode/visibility.rs:469-493 | a superseded committed tuple carries a committed xmax on every page read past redo |
| `FuzzyBackup.SupersededNeverShips` | src/decode/visibility.rs:508-528 | and the gate never ships it |
| `FuzzyBackup.UncommittedNeverShips` | src/decode/visibility.rs:448-466 | nor a tuple whose inserter did not commit |
| `FuzzyBackup.LastShips` | src/decode/visibility.rs:544-553 | the committed tuple ships unless an undecided delete is on the page |
| `FuzzyBackup.OpenDeleteWithholdsRow` | src/decode/visibility.rs:530-541 | an open delete keeps a committed row out |
| `GapReplay.CleanRunDelivers` | src/backfill/backup_backfill.rs:909-925 | every finished run, whatever its crashes and resumes, has delivered exactly the rows its legs owe, if no checkpoint orphaned one |
| `GapReplay.GapDelivered` | src/backfill/backup_backfill.rs:454-461 | in particular every row committed past redo and through the opt-in |
| `GapReplay.CheckpointSafeIff` | src/backfill/backup_backfill.rs:921-924 | a checkpoint keeps every owed row recoverable if and only if it does not orphan one |
| `GapReplay.CheckpointCovers` | src/backfill/backup_backfill.rs:921-924 | the saved point re-decodes an unproven write exactly when that write does not straddle an idle boundary |
| `GapReplay.OrphanIsLostForever` | src/source/streaming_walker.rs:410-418 | an orphaned write is never shipped by any continuation of the run |
| `GapReplay.StraddledRowLost` | src/backfill/backup_backfill.rs:909-925 | a concrete log and run that lose a row |
| `GapReplay.AccompaniedRunsClean` | src/backfill/backup_backfill.rs:921-924 | no run orphans anything when straddling writes have an earlier write of their transaction in the cover |
| `GapReplay.TailCommitNeverReplayed` | src/backfill/backup_backfill.rs:907-928 | no run, whatever its checkpoints, replays a commit whose record runs past the fetched segments |
| `GapReplay.TailRowMissing` | src/backfill/backup_backfill.rs:907-928 | a concrete gap commit across the end of the cover: a run finishes and no run ever has the row |
| `GapReplay.DeliveredUpward` | src/backfill/wal_replay.rs:419-427 | delivery never skips a later write of a transaction ending no earlier |
| `GapReplay.DrainedAre` | src/backfill/wal_replay.rs:318-373 | a commit drains exactly the writes of its tree the leg decoded |
| `GapReplay.ExecKeepsInv` | src/backfill/backup_backfill.rs:842-929 | what every step of a replay keeps |
| `GapReplay.ExecSteady` | src/backfill/backup_backfill.rs:842-929 | every run, orphaning or not, keeps its legs within the plan, buffers exactly what the leg has open and ships only owed rows |
| `GapReplay.Oldest` | src/backfill/wal_replay.rs:186-196 | the lowest buffered record, if any |
| `ReplayLeg.Leg.DecodeNext` | src/backfill/wal_replay.rs:499-560 | one record through the buffer |
| `ReplayLeg.Leg.PushSegment` | src/backfill/backup_backfill.rs:908-910 | pushing a segment is a run that decodes exactly the records ending in it |
| `ReplayLeg.Leg.OldestInflight` | src/backfill/wal_replay.rs:186-196 | the resume point: oldest buffered record capped at the segment end |
| `ReplayLeg.Leg.SaveCheckpoint` | src/backfill/backup_backfill.rs:916-924 | inserts are proved before the resume point is saved |
| `ReplayLeg.Leg.ReplayGap` | src/backfill/backup_backfill.rs:907-928 | the loop reaches the end of the cover, and unless a checkpoint orphaned a write all owed rows are proved |
| `ReplayLeg.SegmentsMatchPlan` | src/backfill/backup_backfill.rs:454-461 | the fetched segments start and end where the plan says, and a resume starts on the segment of its point |
| `ReplayExact.CompleteIffNeverOrphans` | src/backfill/backup_backfill.rs:842-929 | every finished run delivers all it owes, if and only if no run of the log takes an orphaning checkpoint |
| `ReplayExact.OrphanFinishesLost` | src/backfill/backup_backfill.rs:909-925 | an orphaning checkpoint extends to a finished run that misses the row |
| `ReplayExact.AccompaniedIsComplete` | src/backfill/backup_backfill.rs:921-924 | a log whose straddling writes have an earlier write of their transaction in the cover is replayed completely by every run |
| `ReplayRisk.CompleteIffNoRisk` | src/backfill/backup_backfill.rs:842-929 | the replay of a log is complete over all crashes and checkpoints, if and only if no trail of boundaries read off the log loses a due write |
| `ReplayRisk.RiskyIffOrphans` | src/backfill/backup_backfill.rs:842-929 | some run takes an orphaning checkpoint exactly when the log holds such a trail |
| `ReplayRisk.ResumeMatches` | src/backfill/backup_backfill.rs:917-925 | the resume point a checkpoint saves depends on the leg, the boundary and the writes open there alone |
| `ReplayRisk.AccompaniedIsSafe` | src/backfill/backup_backfill.rs:921-924 | accompanied straddlers leave no such trail |
| `ReplayRisk.FirstSegmentRisk` | src/backfill/backup_backfill.rs:921-924 | a due write across the first boundary with nothing before it in the cover always does |
| `ReplayRisk.DetourLoses` | src/backfill/backup_backfill.rs:917-925 | a log whose boundaries are all busy in the first leg is still at risk, through a resume behind one of them |
| `InitialLoad.ResumedLoadConverges` | src/backfill/backup_backfill.rs:158-268 | walk, any crash-and-resume run of the gap replay and the live stream together settle on the source row, if and only if no undecided delete withholds it |
| `InitialLoad.AnyRunConverges` | src/backfill/backup_backfill.rs:158-268 | for settled transactions, on a log without a losing trail, that holds of every run |
| `InitialLoad.ReplayFeedsLoad` | src/backfill/backup_backfill.rs:448-478 | what the replay proves is a delivery the convergence theorem accepts |
| `PublishedLoad.PublishedLoadConverges` | src/backfill/backup_backfill.rs:158-268 | walk, replay, live stream and a publication the ledger calls done, through any crashes and resumes: the destination shows the source's committed row of the key, if and only if no undecided delete withholds it |
| `PublishedLoad.AnyPublishedLoadConverges` | src/backfill/backup_backfill.rs:158-268 | with every writer ended, on a log without a losing trail, it shows that row whatever the replay's run |
| `Prescan.PrescanSink.ObserveRecord` | src/backfill/backup_backfill.rs:993-1100 | one record updates patch and verdict as the sweep specifies; multi-insert records change neither |
| `Prescan.PrescanSink.ObserveHeap` | src/backfill/backup_backfill.rs:1057-1099 | which catalog writes spoil the load |
| `Prescan.PrescanSink.FailClosed` | src/backfill/backup_backfill.rs:987-991 | a reason is kept only if it is the first |
| `Prescan.PrescanGap` | src/backfill/backup_backfill.rs:941-967 | the whole sweep |
| `Prescan.CleanIff` | src/backfill/backup_backfill.rs:972-1100 | a clean verdict if and only if every record is readable, the mapped catalogs stay, and only multi-inserts touch a filtered relation; a touch is a TRUNCATE of it or a catalog row other than a pg_class row of its current filenode |
| `Prescan.CleanIsUntouchedIff` | src/backfill/backup_backfill.rs:37-42 | under a clean verdict no record touches a filtered relation, if and only if no multi-insert does |
| `Prescan.CleanKeepsRelationIff` | src/backfill/backup_backfill.rs:935-967 | under a clean verdict the gap leaves storage and shape of a relation as the backup has them, if and only if the backup has its current filenode and no multi-insert alters it |
| `Prescan.AddColumnPasses` | src/backfill/backup_backfill.rs:1034-1036 | an ADD COLUMN logged as a multi-insert of pg_attribute passes for every filtered relation |
| `Prescan.RewritePasses` | src/backfill/backup_backfill.rs:1075-1083 | a relation rewritten once in the gap passes: the row carries the filenode current at the opt-in |
| `Prescan.FirstReasonKept` | src/backfill/backup_backfill.rs:987-991 | the first reason is never replaced |
| `Prescan.ForeignRecordsDoNotInterfere` | src/backfill/backup_backfill.rs:1020-1060 | deleting well-formed foreign-database records, or non-transaction records past the boundary, changes nothing |
| `Prescan.PatchIsExact` | src/decode/visibility.rs:337-350 | the patch holds exactly the outcomes in the log, whatever the verdict |
| `Prescan.PreparedOwnsOutcome` | src/backfill/backup_backfill.rs:999-1015 | the outcome of a prepared transaction goes to its own xid, not to that of the backend finishing it |
| `Prescan.FirstFiltered` | src/backfill/backup_backfill.rs:1048-1055 | the first filtered relation a TRUNCATE names, if any |
| `Staging.RunsPublishOnce` | src/backfill/backfill_staging.rs:1-17 | over every run with crashes, failed or lingering statements and live inserts: one exchange at most, no acknowledged row lost, prior rows untouched until publication, and "done" only with everything in place |
| `Staging.DoneIsLoadPlusLive` | src/backfill/backfill_staging.rs:1-17 | once the ledger says done the destination is exactly the load up to the opt-in and the acknowledged live rows past it |
| `Staging.NextKeepsInv` | src/backfill/copy_backfill.rs:1626-1840 | a step keeps the invariant behind that if and only if it is harmless: no crash or failed write inside a discard, and no late exchange outside its window |
| `Staging.SafeForeverIff` | src/backfill/copy_backfill.rs:1626-1840 | a step leaves every harmless continuation safe if and only if the state before it makes the step harmless |
| `Staging.RunSafeForeverIff` | src/backfill/copy_backfill.rs:1626-1840 | a whole run is made of harmless steps exactly when every prefix of it stays safe in every continuation |
| `Staging.DoneMeansPublishedIff` | src/backfill/copy_backfill.rs:1682-1685 | "done" means published in every continuation exactly when a discard is neither crashed nor left unwritten |
| `Staging.ResumeCompletes` | src/backfill/copy_backfill.rs:1709-1775 | whatever phase a crash interrupted, one resume completes the publication |
| `Staging.UntidyDiscardMarksDone` | src/backfill/copy_backfill.rs:1752-1763 | a crash, or a failed ledger write, between drop and clear makes a later boot record an unpublished load as done |
| `Staging.LateExchangeUnpublishes` | src/backfill/backfill_staging.rs:446-455 | an exchange applied after the resume exchanged swaps the load out and the drop removes it |
| `Staging.LateExchangePublishesNextLoad` | src/backfill/backfill_staging.rs:446-455 | one that outlives the discard of its load publishes the next load while it is still empty |
| `Staging.LateExchangeIsFound` | src/backfill/copy_backfill.rs:1682-1685 | one applied before the resume looks is found by the uuid and the resume completes |
| `Staging.UntimelyExchangesTwice` | src/backfill/backfill_staging.rs:446-455 | one applied at any other time is, or is followed by, a second exchange |
| `Staging.PublishingKeepsShapeIff` | src/backfill/copy_backfill.rs:1637-1652 | all along a run the destination has the shape its DDL last gave it, if and only if no ALTER falls between a passed gate and its exchange |
| `Staging.AlterSlipsBy` | src/backfill/copy_backfill.rs:1652-1664 | an ALTER after the gate is undone by the exchange |
| `StagingSession.Session.RebuildStaging` | src/backfill/backfill_staging.rs:400-412 | a fresh empty table of the destination shape |
| `StagingSession.Session.Gate` | src/backfill/copy_backfill.rs:1626-1653 | a load of another shape, or of an unmapped relation, is discarded |
| `StagingSession.Session.MarkSwappedEntry` | src/backfill/copy_backfill.rs:1779-1806 | the phase is durable before the exchange or the exchange is withheld |
| `StagingSession.Session.ExchangeTables` | src/backfill/backfill_staging.rs:446-455 | one exchange, whose reply may be lost |
| `StagingSession.Session.CopyBackRows` | src/backfill/backfill_staging.rs:457-503 | rows past S come back from the swapped-out storage, nothing at or below |
| `StagingSession.Session.DropStagingTable` | src/backfill/backfill_staging.rs:414-418 | drop, whose reply may be lost |
| `StagingSession.Session.MarkDoneEntry` | src/backfill/copy_backfill.rs:1808-1822 | done in memory, and on disk if the write succeeds |
| `StagingSession.Session.ClearSwapped` | src/backfill/copy_backfill.rs:1824-1838 | pending in memory, and on disk if the write succeeds |
| `StagingSession.Session.InspectStaging` | src/backfill/copy_backfill.rs:1734-1766 | the staging uuid decides the phase |
| `StagingSession.Session.FinishSwapped` | src/backfill/copy_backfill.rs:1669-1680 | the tail is wait, copy back, drop, record |
| `StagingSession.Session.ResumeSwap` | src/backfill/copy_backfill.rs:1709-1775 | the resume as a run of steps |
| `StagingSession.ResumeIsSafeIff` | src/backfill/copy_backfill.rs:1709-1775 | a resume leaves every continuation safe whatever fails in it, if and only if it does not discard a load without recording so |
| `CatalogVisibility.ReadsSeeTheTree` | pgext/overlay.c:200-241 | after any writers, savepoints, rollbacks, hints and vacuums a read yields exactly the row the tree sees, at most one version, or refuses; a committed read never refuses |
| `CatalogVisibility.ScopedReadTrustsTheLock` | pgext/overlay.c:147-190 | without its lock a relation-scoped read yields the foreign writer row, right exactly when that writer changed nothing |
| `CatalogVisibility.CompleteRecordsNeverMismatch` | pgext/overlay.c:164-190 | with full parentage the holder read neither refuses nor counts a mismatch |
| `CatalogVisibility.VerdictRight` | pgext/overlay.c:200-241 | each version is judged as the tree sees it, or not at all |
| `CatalogVisibility.ExecKeepsInv` | pgext/overlay.c:192-199 | at every savepoint level the versions show exactly the logical row |
| `CatalogVisibility.WriteShows` | pgext/overlay.c:192-199 | a writer leaves exactly its own version visible to itself |
| `CatalogVisibility.WriteKeepsCut` | pgext/overlay.c:192-199 | and nothing changed for anyone below its level |
| `CatalogScan.PathsAgreeIffDistinct` | pgext/overlay.c:478-487 | keyed scans and the lock-free pass agree on rows and counters for every heap, if and only if no oid repeats |
| `CatalogScan.DistinctScansAddUp` | pgext/overlay.c:618-623 | one scan per distinct oid adds up to the set |
| `CatalogScan.AttributeRowsAreUserColumns` | pgext/overlay.c:360-368 | the attribute catalog never yields a system column |
| `CatalogScan.TallyPermutes` | pgext/overlay.c:443-451 | the order rows are met in does not matter |
| `CatalogScan.RepeatedOidDiffers` | pgext/overlay.c:618-623 | a repeated oid is counted once per mention |
| `CatalogScan.Output.Visit` | pgext/overlay.c:451-458 | count, judge, emit; an inconclusive row ends the request |
| `CatalogScan.Output.ScanEmit` | pgext/overlay.c:410-467 | one scan has the tally of its wanted rows |
| `CatalogScan.Output.ScanEmitLockFree` | pgext/overlay.c:488-538 | the heap pass has the tally of the listed rows |
| `CatalogScan.BinarySearch` | pgext/overlay.c:520-524 | found if and only if listed |
| `CatalogScan.SortedCopy` | pgext/overlay.c:607-614 | the list sorted, same members |
| `CatalogScan.KeyedScans` | pgext/overlay.c:618-623 | a scan per list entry, in list order |
| `CatalogScan.OverlayScan` | pgext/overlay.c:540-632 | a request without repeated oids gets the same rows and counters on every lock path |
| `CatalogReads.ScanSeesTheTree` | pgext/overlay.c:200-632 | over a heap of any rows with any histories, a scan for a transaction tree returns one version of each wanted row that tree sees, with that value, and nothing else, or refuses; committed and scoped scans never refuse |
| `CatalogReads.ReadCatalog` | pgext/overlay.c:540-632 | the same of a whole request, whichever path the lock leaves open |
| `Segments.SegmentsCovering` | src/record.rs:17-39 | consecutive segments, first holding the start, minimal to reach the end, as many as announced, up to the top of the position space |
| `Segments.EveryByteCovered` | src/record.rs:17-39 | every byte of the range is in one of them |
| `Segments.ServesWholeIff` | src/source/timeline.rs:188-206 | a timeline's file has every byte of a segment if and only if it is the newest that began in or before it |
| `Segments.LineageServesEveryByte` | src/record.rs:41-58 | every byte of the range is in a named file, under the timeline whose file has the whole segment |
| `Segments.ResumeKeepsSuffixIff` | src/backfill/backup_backfill.rs:457-461 | the filter keeps exactly the suffix from the resume point, if and only if the cover stops short of the last segment |
| `Segments.TopSegmentIsDropped` | src/backfill/backup_backfill.rs:458-461 | the wrapped sum drops the last segment |
| `Routing.RunsStaySafe` | src/config.rs:626-880 | over every run: what was last sent lies in the reserved destinations, opt-ins and exclusions stay apart, and rows are routed by the current inputs or those are being refused; while a receiver lives both views are the same |
| `Routing.NextKeepsInv` | src/config.rs:626-831 | every step keeps that |
| `Routing.ExcludedStaysRoutedIff` | src/config.rs:705-716 | an excluded relation stays routed exactly when it was and, before the call, a connection default or another relation is outside the reservation |
| `Routing.RejectedIffBlocked` | src/config.rs:854-867 | an exclusion is refused exactly then, in any state |
| `Routing.ViewsAgreeIff` | src/config.rs:853-879 | at the end of any run the two views agree if and only if its last accepted update was heard, or brought the tables back to what was last sent |
| `Routing.DeafExclusionDiverges` | src/config.rs:869-879 | an exclusion accepted while nobody listens: a later receiver finds a table that is not routed |
| `Routing.SmallRunDiverges` | src/config.rs:869-879 | a concrete such run, with one table |
| `Routing.OffenderPinsOthers` | src/config.rs:854-867 | while one relation offends, excluding another is refused too |
| `Routing.StrayOptInOffends` | src/config.rs:637-682 | one opt-in naming an unreserved database is enough |
| `Routing.AlterShows` | src/config.rs:806-831 | an accepted ALTER shows its folded columns in the routing map, and in the watch if anyone listens, whichever layer owns the mapping |
| `RoutingRules.RankedAnyOrder` | src/config.rs:893-903 | any two passes over the runtime rows rank to the same rules |
| `RoutingRules.BuildRules` | src/config.rs:893-905 | the rules built, rows taken as the map yields them, are the rules in force |
| `RoutingRules.RulesAre` | src/table_rules.rs:375-427 | the rules are ranked and hold exactly the compiling entries of the file and of the rows |
| `RoutingRules.RowStates` | src/table_rules.rs:132-147 | a runtime row states its database, table and replication, and never an instance or tees |
| `RoutingRules.OwnRowDecides` | src/table_rules.rs:230-283 | what the literal runtime row of a relation states is in force, whatever the file and the patterns say |
| `RoutingRules.OwnRowReplicates` | src/table_rules.rs:278-281 | replication included: the row outweighs every excluding pattern |
| `RuledRouting.PublishedInAnyOrder` | src/config.rs:884-1144 | the resolved tables do not depend on the order in which the runtime rows come |
| `RuledRouting.OwnRowRoutes` | src/config.rs:1098-1144 | a literal runtime row decides where its relation goes and whether it is routed at all, whichever layer maps it |
| `RuledRouting.ExcludingPatternUnroutes` | src/config.rs:1140-1144 | an excluding pattern keeps a relation unrouted unless a literal entry speaks |
| `RuledRouting.SettingsFor` | src/table_rules.rs:254-288 | one merge gives a relation's settings under given rules |
| `RoutedSchema.PublishedColumnsNeverDrift` | src/config.rs:806-831 | through any run of events, reloads, opt-ins and exclusions of other relations and ALTERs of this one, all followable, both views show the names its latest descriptor derives under the latest column rules |
| `RoutedSchema.NamesStayDerivedIff` | src/config.rs:806-831 | the mapping has the derived names all along a run if and only if every ALTER agrees and every reload names the mapped columns as before |
| `RoutedSchema.FoldCarries` | src/mapping.rs:607-645 | every ALTER between two descriptors is carried by the fold of their difference |
| `RoutedSchema.RuleReloadLags` | src/config.rs:1224-1230 | a reload that brings a renaming rule leaves the mapping with its old names |
| `RoutedSchema.OptInFollows` | src/config.rs:637-682 | an opt-in with the derived columns starts such a run |
| `RoutingResolver.ResolveTables` | src/config.rs:884-1144 | ranking, retargeting and filtering, in whatever order the maps are iterated, give the resolved tables |
| `RoutingResolver.CheckDestinations` | src/config.rs:540-575 | accepts exactly what is reserved, tees and instances included |
| `RoutingResolver.CheckConns` | src/config.rs:545-555 | every connection default database must be reserved |
| `RoutingResolver.CheckTargets` | src/config.rs:557-573 | every target of a mapping must be reserved |
| `RoutingResolver.ConfigResolver.RepublishInputs` | src/config.rs:854-880 | both views from the inputs, or neither |
| `RoutingResolver.ConfigResolver.ApplyConfigEvent` | src/config.rs:626-630 | an event is its step |
| `RoutingResolver.ConfigResolver.MaterializeOptIn` | src/config.rs:637-682 | an opt-in is its step |
| `RoutingResolver.ConfigResolver.ExcludeTable` | src/config.rs:705-716 | an exclusion is its step |
| `RoutingResolver.ConfigResolver.RegisterDerivedMapping` | src/config.rs:751-756 | a derived mapping is its step |
| `RoutingResolver.ConfigResolver.ForgetDerivedMapping` | src/config.rs:784-798 | forgetting is its step, parking a runtime opt-in |
| `RoutingResolver.ConfigResolver.ApplySchemaDiff` | src/config.rs:806-831 | the owning layer's mapping takes the fold and is republished |
| `RoutingResolver.ConfigResolver.ReloadBase` | src/config.rs:1224-1230 | a reload is checked before its base is taken on |
| `RoutingResolver.ConfigResolver.ReserveDestinations` | src/config.rs:532-538 | reserves once and says whether the current view fits |
| `RoutingResolver.ConfigResolver.ReceiversGone` | src/config.rs:876-879 | losing the last receiver is its step |
| `RoutingResolver.ConfigResolver.NewReceiver` | src/config.rs:587-589 | a new receiver sees the last value sent |
| `RankedRules.RankingIsOrderFree` | src/table_rules.rs:415-427 | the ranked rules do not depend on the order runtime rows come in |
| `RankedRules.AnyOrderRanksAlike` | src/table_rules.rs:415-427 | entries with distinct keys rank the same in any order |
| `RankedRules.Trichotomy` | src/table_rules.rs:235-242 | rank and layer are a total order; ties share names, kind and layer |
| `RankedRules.WinnerIsHighestRanked` | src/table_rules.rs:159-172 | a stated field comes from an applicable entry none outranks |
| `RankedRules.LiteralBeatsPatterns` | src/table_rules.rs:233-242 | a literal entry beats every pattern, whatever its layer |
| `RankedRules.NarrowestWins` | src/table_rules.rs:230-242 | nothing stating the field is longer than the winner of its kind |
| `RankedRules.PartitionMergesReaching` | src/table_rules.rs:254-272 | a partition is ruled by literals and by patterns that route it to itself, as a plain table would be |
| `RankedRules.PartitionReplicatesReaching` | src/table_rules.rs:254-281 | replication of a partition likewise, excluding patterns included |
| `RankedRules.RuntimeBeatsFile` | src/config.rs:893-906 | at equal specificity the runtime row wins |
| `RankedRules.ExclusionWins` | src/table_rules.rs:278-281 | an excluding pattern bars the relation unless a literal entry speaks |
| `RankedRules.Merge` | src/table_rules.rs:256-283 | the merge loop: last statement of every field, replication by exclusion, whether a pattern contributed |
| `RankedRules.ColumnSettings` | src/column_rules.rs:127-135 | the column merge |
| `RankedRules.Builder.Add` | src/table_rules.rs:375-388 | an entry joins the current layer, or is counted as rejected |
| `RankedRules.Builder.Finish` | src/table_rules.rs:415-427 | ranked broadest to narrowest, ties in the order added |
| `SchemaFold.FoldEqualsDerivationIff` | src/mapping.rs:607-645 | folding the difference into any mapping with the derived names gives the names deriving afresh would, if and only if every shared column agrees |
| `SchemaFold.AlikeIff` | src/mapping.rs:549-573 | a change of column rules keeps the derived names if and only if it names every mapped column as before |
| `SchemaFold.FoldFolds` | src/mapping.rs:607-645 | every difference has a fold |
| `SchemaFold.RenamedUnderRuleLags` | src/mapping.rs:621-632 | a renaming rule and a later rename: the mapping keeps the rule's name for the old column |
| `SchemaFold.UnmappedTypeLags` | src/mapping.rs:607-645 | a column whose type loses its destination type stays mapped |
| `SchemaFold.MappedTypeLags` | src/mapping.rs:607-645 | one whose type gains a destination type is not picked up |
| `SchemaFold.ChainNeverDrifts` | src/mapping.rs:607-645 | along any chain of agreeing ALTERs the mapping never drifts |
| `SchemaFold.PlainRulesAgree` | src/mapping.rs:549-573 | with a total bridge and no renaming rule every step agrees, name swaps included |
| `SchemaFold.ComputeDiff` | src/schema.rs:263-294 | exactly the added, dropped, renamed and retyped columns, dropped ones ascending |
| `SchemaFold.FoldDiff` | src/mapping.rs:607-645 | how the mapping after relates to the one before |
| `SchemaFold.TableMapping.ApplyRetypes` | src/mapping.rs:614-620 | planned types, column by column |
| `SchemaFold.TableMapping.ApplyRenames` | src/mapping.rs:621-632 | a column still named after its source follows the rename |
| `SchemaFold.TableMapping.Retain` | src/mapping.rs:633-635 | exactly the columns not dropped remain |
| `SchemaFold.TableMapping.AppendAdded` | src/mapping.rs:636-644 | an added column joins unless its number is present or has no type |
| `SchemaFold.RenameAllFollows` | src/mapping.rs:621-632 | where a list of renames takes a name |
| `SchemaFold.RetypeTakesLast` | src/mapping.rs:614-620 | the last planned type wins |
| `SchemaFold.DeriveHas` | src/mapping.rs:566-573 | the derived columns are the mapped live attributes |
| `ConfigOverlay.StepEqualIff` | src/runtime_config.rs:216-242 | one write leaves the overlay equal to the source if and only if it neither moves a key nor empties a table with rows |
| `ConfigOverlay.ReplayEqualsSourceIff` | src/runtime_config.rs:216-242 | replaying a whole log gives the source tables if and only if every key that vanished unlogged is written again later |
| `ConfigOverlay.FollowedReplayEqualsSource` | src/runtime_config.rs:216-242 | in particular a log that moves no key and empties no table with rows replays to the source tables |
| `ConfigOverlay.BootConvergesIff` | src/runtime_config.rs:208-215 | a SELECT at any point and a replay from at or before it end as the source, if and only if every key still stale then was neither selected nor named by a replayed write |
| `ConfigOverlay.SeedThenOverlapConverges` | src/runtime_config.rs:208-242 | overlap between seed and replay does not matter |
| `ConfigOverlay.InterpretReads` | src/runtime_config.rs:244-424 | a logged change, unlogged columns filled from the old image, is read back as the upsert or removal of its row, and a truncation as nothing |
| `ConfigOverlay.KeysTellRowsApart` | src/runtime_config.rs:344-412 | which columns identify a config row |
| `ConfigOverlay.MovedRowLingers` | src/runtime_config.rs:327-424 | a moved row stays behind under its old key |
| `ConfigOverlay.EmptiedRowLingers` | src/runtime_config.rs:327-424 | rows a TRUNCATE takes stay behind |
| `ConfigOverlay.ConfigOverlayStore.Apply` | src/runtime_config.rs:216-242 | the four maps follow the keyed overlay |
| `ConnCache.DestEmitter.Current` | src/config.rs:258-272 | the config object agrees with the live snapshot and changes only if a connection setting did |
| `ConnCache.DestEmitter.Instance` | src/config.rs:274-295 | the instance object belongs to the current config object |
| `ConnCache.ChConn.Select` | src/ch.rs:352-365 | the active connection is parked under its own name and never also held |
| `ConnCache.ChConn.Config` | src/ch.rs:348-350 | the config on record: the selected object, current or not, else what the destination yields |
| `ConnCache.ChConn.Refresh` | src/ch.rs:443-446 | the object the live snapshot yields now for the instance, or none if it does not know it |
| `ConnCache.ChConn.TakeReady` | src/ch.rs:442-467 | a handed-out client was dialled under the very object the live snapshot yields now; with none cached it is a new connection |
| `ConnCache.ChConn.Try` | src/ch.rs:415-428 | one attempt: its client has the settings in force, and there is none only if the dial fails or the instance is unknown |
| `ConnCache.ChConn.Ready` | src/ch.rs:374-377 | same, and the client stays cached |
| `ConnCache.ChConn.Retry` | src/ch.rs:403-440 | over every sequence of config changes and failures: attempt k's client has the settings last published by then, every resend has a connection of its own, the result is the last attempt's, and attempts stop at success, a final error or the cap |
| `ConnCache.SelectRoundTrip` | src/ch.rs:352-365 | selecting another instance and back finds the same connection |
| `WaitSet.RunsStayConsistent` | pgext/worker.c:704-771 | at every wait of every run the set names the table, every accepted descriptor is in it once or closed, and the cap holds |
| `WaitSet.RoundServesTheReported` | pgext/worker.c:734-764 | the served connection is the one named at a reported position, and one is served whenever one was reported |
| `WaitSet.RoundStaysValid` | pgext/worker.c:718-764 | a changed membership leaves a generation the cached set does not have, wrap-around included |
| `WaitSet.CountWouldMissAChange` | pgext/worker.c:644-650 | why the set is keyed on the generation |
| `WaitSet.DropAccounts` | pgext/worker.c:696-702 | a drop closes exactly its own descriptor |
| `WaitSet.Worker.AcceptConn` | pgext/worker.c:652-694 | accept joins the table or closes the socket |
| `WaitSet.Worker.DropConn` | pgext/worker.c:696-702 | the last connection takes the dropped one place |
| `WaitSet.Worker.BuildWaitSet` | pgext/worker.c:611-623 | the set lists the table in order |
| `WaitSet.Worker.WalkEvents` | pgext/worker.c:734-744 | the events of one wait |
| `WaitSet.Worker.ServeRound` | pgext/worker.c:722-764 | one turn of the loop; the index served is in the table |
| `WaitSet.Worker.CloseAll` | pgext/worker.c:766-773 | shutdown closes whatever is left |

## Left out

- Tokio semaphores and watch channels: taken as FIFO counting semaphores and a versioned cell; cancelling a pending acquire, the wait and overshoot counters and the panic of `units_for` past 32 bits of units are not modelled.
- FuzzyBackup.LoadConverges: multixact xmax, transaction ids below the first normal one and TOAST chunks are not modelled; the transaction view is assumed truthful and to know every commit up to the later of redo and the opt-in, which is what the copied logs and the pre-scan patch provide.
- FuzzyBackup.LoadConverges: equal `_lsn` keeps the later insert, which is what the destination engine is assumed to do; keys are followed one at a time, so an update that changes the key is a delete of one key and a write of another.
- GapReplay.CleanRunDelivers: TOAST mirror writes, row routing, several relations with different opt-ins in one leg and the pacing of checkpoints (any boundary may get one) are not modelled.
- GapReplay.AccompaniedRunsClean: one direction only, a simple condition on the log; the exact one is ReplayRisk.CompleteIffNoRisk.
- InitialLoad.AnyRunConverges: assumes every gap commit record ends within the fetched segments, without which TailCommitNeverReplayed shows rows missing.
- Staging.RunsPublishOnce: one relation; the straggler wait is taken to outlast inserts that resolved the old storage; the pending-visibility tables, partitions sharing a destination and the column intersection of copy-back are not modelled.
- Prescan.CleanKeepsRelationIff: a relation is its filenode and a count of changes to its storage or columns; in-place updates and deletes of catalog rows, which carry no new row, are not changes; catalog rows are known by the initial file nodes, which a clean verdict keeps.
- CatalogVisibility.ReadsSeeTheTree: recorded parentage is a subtransaction itself or its top-level transaction, as assignment records give it; column projections are not modelled.
- PublishedLoad.PublishedLoadConverges: one key of one relation; that staging receives exactly the walked and replayed rows up to the opt-in, and the live stream the rest, is its hypothesis.
- CatalogScan.OverlayScan: an index scan is any order of the heap's rows; concurrent page changes are excluded by the pinned replay position.
- Routing.RunsStaySafe: knob ranges, column rules, strategies and the Snowflake branches of the resolver are not modelled; the settings of a relation enter as a function, which RuledRouting ties to the ranked rules.
- RoutingResolver.ConfigResolver.MaterializeOptIn: the mapping is given; deriving its target from templates and namespaces is not part of the step, and its columns are tied to the descriptor in RoutedSchema.OptInFollows.
- RoutingResolver.ConfigResolver.ApplySchemaDiff: the fold is a function on columns; RoutedSchema.PublishedColumnsNeverDrift ties it to the descriptors, SchemaFold.FoldDiff is the loop that computes one.
- RoutedSchema.PublishedColumnsNeverDrift: runs that keep a watch receiver, since an ALTER folds under the column rules last sent.
- RankedRules.Merge: glob and regex matching is an arbitrary predicate on entries, and the sort is an insertion that keeps ties in order, as a stable sort does.
- SchemaFold.FoldEqualsDerivationIff: speaks of column numbers and target names; destination types and nullability are only followed through the planned retypes.
- ConfigOverlay.InterpretReads: columns are read by position, key columns first; text arrays are not decoded.
- ConnCache.ChConn.Retry: back-off delays and idle time are inputs, the connect that creates a missing database is a dial like any other.
- WaitSet.Worker.ServeRound: request handling is one answer, kept or failed; the per-connection wait set is not modelled separately.
- Segments.SegmentsCovering: file-name rendering and parsing of history files are not modelled; a history is its branches in order.
- Stream decoding, spill files, DDL application, the emitter pipeline, TOAST stores, tenants, metrics and everything else in the daemon are not modelled.
