# Verified model of the attachment queue, node lookup, eager loading, bulk save and reprocess

Dafny models of six parts of an MLS synchronisation service, with proofs of what they
promise. `dafny verify dfyconfig.toml` checks everything.

| file | part of the program |
|---|---|
| `Collections`, `Tables`, `Paging` | finite sets and sequences; the rows of media, attachment_job and sync_event; keyset paging |
| `Database`, `Warm`, `WarmRun` | the `warm` command, statement by statement, in the imperative form of `cmd/warm.go` |
| `WarmSpec` | what a run may have done when it stops (`Progress`) and has done when it returns nil (`Complete`) |
| `WarmTheorems`, `WarmCoverage` | crashes and reruns, idempotence, limited runs, coverage, what is canceled and re-queued |
| `WarmProtocol`, `ProtocolSafety`, `ProtocolCancel` | the same statements as a protocol, with attachment workers and crashes between any two of them |
| `ProtocolCoverage` | coverage of the selected media while workers act |
| `WarmExamples` | concrete tables and histories for the differences listed below |
| `NodeLookup` | batch lookup of GraphQL nodes (`ent/gql_node.go`) |
| `EagerLoading`, `EagerLimits`, `EagerToOne` | one-to-many and many-to-one eager loading, and what a limit on an edge means (`ent/attachment_query.go`, `ent/attachmentjob_query.go`) |
| `BulkCreate` | the recursive mutator chain of a bulk save (`ent/attachmentjob_create.go`) |
| `WorkerLoop` | the bounded drain loop (`cmd/worker.go`) |
| `Reprocess` | the transactional cursor reset and its audit event (`cmd/reprocess.go`) |

How the `warm` files fit together. `WarmRun.RunWarm` is the command over a mutable
database whose statements may start failing at any point (`Database.budget`), so a run can
be stopped before any of its statements. It is proved to leave `Progress` wherever it stops,
`Complete` when it returns nil, and to have gone through steps of `WarmProtocol` on the way.
Everything in `WarmTheorems` and `WarmCoverage` follows from `Progress` and `Complete` for
all tables, row orders, ids and chunk sizes; everything in `ProtocolSafety`, `ProtocolCancel`
and `ProtocolCoverage` holds of every history of runs, crashes and worker moves.

Where the code and what is said about it differ, the model follows the code:

- "`--exclusive` collapses the queue to the listings worth showing" holds exactly when some
  media was selected or nothing was cancelable: with an empty selection RunE returns before
  the cancel (`WarmCoverage.ExclusiveExact`; at a concrete table, `WarmExamples.ClosedKeepsStray`).
- "Canceling is recoverable" fails for media that already have an attachment: an exclusive
  run cancels their pending job even though the listing is in the selected statuses, and no
  later `warm` run queues it again, however many there are and whatever their flags
  (`WarmCoverage.OnMarketCanceledExactly`, `WarmCoverage.RequeuedExactly`,
  `WarmExamples.RefreshIsLost`).
- "`in_progress` belongs to a live worker", so it is not touched: a run does write such a job
  exactly when the update of a page lists it and a worker took it since that page's scan,
  because the update filters by id alone (`ProtocolCancel.LiveJobHitExactly`; a history from
  Idle where it happens, `WarmExamples.ClaimedJobIsCanceled`).
- A selected media whose only blocking job succeeded without an attachment is never downloaded
  and never queued (`WarmCoverage.TargetCovered`). Neither a run nor a worker leaves such a job
  (`ProtocolSafety.SucceededCarryAlways`); deleting an attachment row does, because both
  foreign keys to it are set null (`WarmCoverage.DeletionSticks`, `WarmExamples.DeletedPhotoIsStuck`).
- Eager loading is the nested-loop join only while the edge query's limit and offset cut no row
  off the batched answer (`EagerLoading.BatchIsNestedLoop`, `EagerToOne.EveryEdgeFound`): a limit
  on an edge is spent on all parents together (`EagerLimits.LimitPerParent`, and
  `EagerLimits.LimitStarvesSibling` at a concrete input).
- "Without writing anything" holds of a dry run's jobs and events only: the link repair comes
  first, and the media table is left alone exactly when it has nothing to link
  (`WarmCoverage.DryRunWritesLinks`).
- A hook that passes another mutation on escapes the bulk save's check, which looks at the
  mutation the builder held before: whether the insert is issued does not depend on what is
  passed on, so the outcome is the database's answer to unchecked rows
  (`BulkCreate.SwapEscapesCheck`, `BulkCreate.CheckedIsInserted`). The database still refuses
  missing columns (`BulkCreate.NullRowRefused`); what gets past both is a status outside the
  list (`BulkCreate.OnlyStatusEscapes`, and a row with one, `BulkCreate.UncheckedRowInserted`).

## Model

| member | source | states |
|---|---|---|
| WarmRun.RunWarm | cmd/warm.go:71-175 | from any tables, stopped before any statement or not: the tables moved by Progress; if nil is returned they moved by Complete and `created` is the number of rows inserted; an error needs a failed statement or no source system; and the statements issued are a run of the protocol that ends in the tables left, idle if nil is returned |
| WarmRun.WarmSelected | cmd/warm.go:129-174 | from the selected media on, the same for --limit, --dry-run and --exclusive in every combination |
| WarmRun.EnqueueTodo | cmd/warm.go:157-167 | old rows untouched, `created` new pending rows for distinct missing keys; no event and no insert when nothing is to be added |
| WarmRun.CancelRest | cmd/warm.go:169-171 | the cancel never touches a row just enqueued, and when it finishes all other cancelable rows are canceled |
| Warm.WarmEnqueue | cmd/warm.go:179-195 | wherever it stops, exactly the first `created` keys have one new pending row each and every old row is as it was; without error `created` is all of them |
| Warm.SelectUnattached | cmd/warm.go:110-123 | chunked querying finds exactly the media one query would, each once |
| Warm.ExistingJobKeys | cmd/warm.go:320-344 | the chunked answer is exactly the listed keys that have a pending, retrying, in_progress or succeeded job |
| Warm.WarmSyncEvent | cmd/warm.go:349-380 | a running media backfill event: an existing one if there is any, else one new row; on error no event row changed |
| Warm.Unblocked | cmd/warm.go:135-140 | exactly the selected keys outside the blocked set, each in its place among the others |
| Warm.CancelPage | cmd/warm.go:292-311 | one page: exactly its rows outside keep are canceled, the count drops by what `canceled` rises, and a progress line is written exactly when a multiple of 20 chunks is crossed |
| Warm.CancelNextPage | cmd/warm.go:275-312 | one turn of the loop: the canceled prefix extends to the new cursor, strictly fewer rows are left above it, or the scan is empty and the cancel is complete |
| Warm.WarmCancelOthers | cmd/warm.go:241-315 | the loop terminates with the one-shot effect on pending and retrying jobs above uuid.Nil, visits each of them exactly once in order, total counts the pending and retrying jobs before and total - canceled those after, ceil(rows/chunk) + 1 scans, floor(canceled/(20 chunk)) lines; stopped early, exactly the rows up to some cursor are done |
| Database.Database.RepairLinks | cmd/warm.go:211-228 | null links take the attachment of some downloaded job of the same key iff there is one; no other row or column moves |
| Database.Database.ListingKeys | cmd/warm.go:97-102 | each listing of a matching, non-null status once |
| Database.Database.UnattachedKeys | cmd/warm.go:112-121 | each unattached property media of these listings once |
| Database.Database.BlockingJobs | cmd/warm.go:329-338 | the keys of the matching jobs, one row per job |
| Database.Database.FirstRunningBackfill | cmd/warm.go:350-362 | a running backfill if there is one, none only if there is none |
| Database.Database.CreateEvent | cmd/warm.go:368-378 | one event under a new id, or nothing |
| Database.Database.InsertJobs | cmd/warm.go:182-190 | one pending row per key under new ids, all or none |
| Database.Database.CountCancelable | cmd/warm.go:250-255 | the number of pending and retrying jobs |
| Database.Database.ScanCancelable | cmd/warm.go:276-286 | the first chunk of cancelable rows above the cursor, ascending |
| Database.Database.CancelIds | cmd/warm.go:299-305 | the rows with these ids canceled whatever their status, and how many there were |
| WarmSpec.RepairFillsExactlyTheLinkable | cmd/warm.go:211-228 | a non-null link is never overwritten; a null one is filled iff a succeeded job of the key has an attachment, with such a job's, and no other column of the row moves |
| WarmSpec.RepairIsIdempotent | cmd/warm.go:207-210 | a second repair changes nothing, whichever jobs the first chose |
| WarmSpec.RepairMakesQueryExact | cmd/warm.go:84-90 | after the repair the plain null test selects exactly the media that need a download |
| Paging.AboveCursorUntouched | cmd/warm.go:265-270 | canceling below the cursor neither hides nor adds a row above it |
| Paging.PageAdvances | cmd/warm.go:275-311 | a page read from the changed table extends the canceled prefix to its last row: none skipped, none met twice |
| Paging.KeysetRefinesOneShot | cmd/warm.go:262-270 | the loop equals the single UPDATE iff no job it should cancel has the id uuid.Nil |
| Paging.CancelableIsWaiting | cmd/warm.go:246-249 | what is counted and scanned is exactly the pending and retrying jobs |
| WarmTheorems.TargetStable | cmd/warm.go:84-123 | a rerun selects the same media however far the stopped run got |
| WarmTheorems.MissingShrinks | cmd/warm.go:129-140 | what a rerun finds missing is what was missing less what was enqueued, as sets and in number |
| WarmTheorems.ProgressComposes | cmd/warm.go:88-171 | a stopped run continued by another has done no more than one run may do, and the numbers enqueued add up |
| WarmTheorems.RerunCompletes | cmd/warm.go:129-171 | an unlimited run stopped anywhere and then run to the end is one complete run |
| WarmTheorems.CrashesThenRerun | cmd/warm.go:129-171 | the same for any number of stopped runs, by induction over them |
| WarmTheorems.OutcomesAgree | cmd/warm.go:88-171 | any two complete unlimited runs from the same tables end with as many jobs of each key in each status |
| WarmTheorems.CrashIsInvisible | cmd/warm.go:179-195 | crashes and a rerun end with the same multiset of (media_key, status) as the uninterrupted run, and no key was enqueued twice |
| WarmTheorems.RerunIsNoOp | cmd/warm.go:129-140 | an unlimited run right after an unlimited one changes no row of any table, with or without --exclusive |
| WarmCoverage.SelectedExactly | cmd/warm.go:92-118 | a media is selected iff it is of a property listing whose status is one of those given, or Active or ActiveUnderContract when none was, has no attachment, and no succeeded job of its key has one |
| WarmCoverage.QueuedExactly | cmd/warm.go:129-171 | a complete unlimited run inserts one job for every selected media without a pending, retrying, in_progress or succeeded job, pending and under a running media backfill, and no other job |
| WarmCoverage.EventsExactly | cmd/warm.go:349-380 | events that were there stay as they were; at most one is added, a running media backfill, and only if no running one was there, ended ones not counting |
| WarmCoverage.TargetCovered | cmd/warm.go:212-219 | a selected media has a live job after an unlimited run iff it was not stuck on a succeeded job without an attachment |
| WarmCoverage.CoverageExact | cmd/warm.go:88-171 | all selected media have a live job iff none was stuck; in particular when every succeeded job carries an attachment |
| WarmCoverage.CanceledExactly | cmd/warm.go:230-240 | an exclusive run cancels a job iff its status was pending or retrying, its media was not selected, anything was selected, and its id is not uuid.Nil, and then changes its status alone; every other row is untouched |
| WarmCoverage.ExclusiveExact | cmd/warm.go:104-127 | no job of an unselected media stays pending or retrying iff the selection was not empty and none such sat at uuid.Nil, or nothing was cancelable |
| WarmCoverage.OnMarketCanceledExactly | cmd/warm.go:61-65 | a pending job of a listing inside the selected statuses is canceled iff its media has, or is repaired to have, an attachment |
| WarmCoverage.RequeuedExactly | cmd/warm.go:317-319 | a key without a pending, retrying, in_progress or succeeded job, canceled ones included, is queued by the next unlimited run iff its media is of a listing in the selected statuses and unattached |
| WarmCoverage.AttachedNeverQueued | cmd/warm.go:112-118 | no run, complete or stopped, queues a media that has an attachment, nor changes its row |
| WarmCoverage.AttachedNeverQueuedLater | cmd/warm.go:112-118 | a media with an attachment and no blocking job gets no job from any later run, over any number of runs each with its own flags and stopped anywhere |
| WarmCoverage.DryRunWritesLinks | cmd/warm.go:84-151 | a dry run leaves jobs and events alone, and the media table iff no unlinked media has a downloaded job |
| WarmCoverage.DeletionSticks | ent/migrate/schema.go:185-192 | when the attachment of an on-market media is deleted, the next unlimited run leaves it without one iff no other succeeded job has one for it, and then it has a live job iff it had one before |
| WarmExamples.ClosedKeepsStray | cmd/warm.go:104-106 | at a table with nothing on the market, every exclusive run that returns nil leaves the pending job of an unselected media queued |
| WarmExamples.ClosedRun | cmd/warm.go:104-106 | there is such a run |
| WarmExamples.RefreshIsLost | cmd/warm.go:237-240 | at a concrete Active listing an exclusive run cancels a pending job, and no later run, however many and whatever their flags, queues that media again |
| WarmExamples.RefreshRun | cmd/warm.go:241-311 | there is such a run |
| WarmExamples.DeletedPhotoIsStuck | ent/migrate/schema.go:71-78 | at a concrete downloaded photo whose attachment row is deleted, an unlimited run selects it, gives it no live job and leaves it without an attachment |
| WarmExamples.DeletedRun | cmd/warm.go:129-140 | there is such a run |
| WarmExamples.ClaimedJobIsCanceled | cmd/warm.go:275-305 | a concrete history from Idle in which a run cancels an in_progress job that a worker claimed between a scan and its update |
| WarmCoverage.LimitedRunsCount | cmd/warm.go:135-167 | k runs with --limit L enqueue exactly min(k L, n) of the n missing keys |
| WarmCoverage.LimitedRunsConverge | cmd/warm.go:135-167 | nothing is missing after k limited runs iff k >= ceil(n / L) |
| WarmProtocol.RunIsHistory | cmd/warm.go:71-175 | the statements of a run are a history of the protocol in which nobody else acts |
| ProtocolSafety.PhaseInvAlways | cmd/warm.go:110-140 | in every state of every history of runs, crashes and worker moves the local variables of a run keep their meaning: keys to enqueue are distinct and still unblocked, ids to cancel were cancelable and outside keep when scanned |
| ProtocolSafety.NoNewDuplicates | cmd/warm.go:179-195 | two jobs block one media only if the same two did at the start of the history |
| ProtocolSafety.OneBlockingJobAlways | cmd/warm.go:320-344 | at most one blocking job per media is an invariant of every history |
| ProtocolSafety.RunKeepsOneBlockingJob | cmd/warm.go:129-171 | so it is kept by every run of the command, wherever it stops |
| ProtocolSafety.SucceededCarryAlways | sync/attachment.go:656-667 | in every history, if succeeded jobs carry attachments at the start they always do |
| ProtocolSafety.CanceledForever | sync/attachment.go:656-667 | a canceled job stays canceled for the rest of every history |
| ProtocolCancel.WarmWritesOnlyDoomed | cmd/warm.go:292-302 | a run changes an existing job only by canceling it in the update of a page whose scan found it pending or retrying outside keep |
| ProtocolCancel.LiveJobHitExactly | cmd/warm.go:237-240 | in every history, a run changes a job that is not pending or retrying at that moment iff it is updating a page that lists the job and a worker took the job since that page's scan |
| ProtocolCancel.LiveJobsUntouched | cmd/warm.go:292-302 | in particular it changes none when no worker acts between a scan and its update |
| ProtocolCancel.ClaimInBetweenIsLost | sync/attachment_claim.go:86-100 | from any state between scan and update: a listed job that is claimed then is canceled under its worker, and no worker move brings it back |
| ProtocolCancel.WaitingJobsAreCanceled | cmd/warm.go:265-311 | a job outside keep that stays pending or retrying until the cursor passes it is canceled when the loop ends, whatever workers do to the others |
| ProtocolCancel.CancelLoopEnds | cmd/warm.go:275-311 | under any interleaving the loop issues at most two statements per job and one more |
| ProtocolCoverage.EverySelectedServed | cmd/warm.go:129-171 | beside any worker moves, once an unlimited run that was not stopped is through, every selected media has had a pending, retrying, in_progress or succeeded job in some state since the run began to check |
| NodeLookup.Noder | ent/gql_node.go:158-169 | case by case: the row of the id; a failing query or resolver as it is; a missing row, an unknown table or a resolver's not-found joined with the node error |
| NodeLookup.IndexIds | ent/gql_node.go:383-388 | for every id exactly its positions, duplicates included |
| NodeLookup.NodersOf | ent/gql_node.go:383-420 | one table: every position holds the row of its id or nothing |
| NodeLookup.GroupIds | ent/gql_node.go:336-347 | ids grouped by the table they resolve to, positions of exactly those, an error at each unresolved position |
| NodeLookup.ResolveTable | ent/gql_node.go:349-363 | the answer of one table, rows or one error, reaches exactly the positions of its ids |
| NodeLookup.ResolveGroups | ent/gql_node.go:349-364 | whatever order the tables are taken in, every position ends with what its own id calls for |
| NodeLookup.Report | ent/gql_node.go:366-379 | one error per position without a node, in order |
| NodeLookup.Noders | ent/gql_node.go:322-381 | for two or more ids each position holds the node of its id or nil, with the failing positions reported; one id behaves as Noder; none gives none |
| NodeLookup.FailuresExact | ent/gql_node.go:366-379 | the reports name each position at most once, ascending, and exactly those whose own lookup fails |
| NodeLookup.BatchMeans | ent/gql_node.go:349-379 | at each position of a batch, case by case, the node it holds or the one error reported for it |
| NodeLookup.BatchAgreesWithNoder | ent/gql_node.go:322-381 | from the contracts of Noders and Noder: at every position of a batch the node Noder finds; where Noder fails nothing and exactly one report, of Noder's error, except that a missing row is reported as the node error alone |
| EagerLoading.QuerySpec | ent/attachmentjob_query.go:687-707 | with a projection: exactly id, the chosen fields and the edges' foreign keys, none twice when the chosen fields are distinct; without one every column |
| EagerLoading.NeighboursAre | ent/attachment_query.go:490-493 | the answer to an edge query, by places in the table: all kept rows with a non-null listed key of any kind, each once, in table order, the selected columns of each |
| EagerLoading.NeighboursExactly | ent/attachmentjob_query.go:618-622 | a row is in the answer iff it is the selected part of such a row |
| EagerLoading.CutIs | ent/media_query.go:570-575 | under a limit and an offset the rows from the offset on, up to the limit |
| EagerLoading.LoadToMany | ent/attachment_query.go:477-509 | no error; the last node of each id holds exactly the rows of the batched answer that name it, in order, whatever columns were chosen; earlier nodes of the same id and unmatched ones hold an empty list; the lists' lengths sum to the number of rows; with distinct ids and nothing cut off, each parent has all kept rows of the table that name it, in table order |
| EagerLoading.Assign | ent/attachment_query.go:497-507 | each row is appended to its parent's list in order; an error return needs a row with a null or unknown key |
| EagerLoading.SelectNeighbours | ent/attachment_query.go:487-497 | the rows of the batched answer with one key are that key's own query, if the key column was selected |
| EagerLoading.NeighboursKnown | ent/attachment_query.go:497-505 | every row of the batched answer has a non-null key of a known node, so both error returns are unreachable |
| EagerLoading.BatchIsNestedLoop | ent/attachment_query.go:477-509 | batched loading is the nested-loop join iff the edge query's limit and offset cut no row off the batched answer and no two parents share an id that some row refers to |
| EagerLoading.ParentsHaveTheirRows | ent/attachment_query.go:477-509 | so with distinct ids and nothing cut off every parent ends with all rows of the table that name it, in table order |
| EagerLoading.CutLosesKey | ent/media_query.go:570-575 | a limit or offset that cuts anything off takes a row from some key |
| EagerLimits.LimitPerParent | ent/media_query.go:570-575 | every parent gets the first n rows of its own query under Limit(n) iff the whole answer has at most n rows or all of them name one parent |
| EagerLimits.OffsetPerParent | ent/media_query.go:573-575 | every parent gets its own query's rows after the first n under Offset(n) iff n is 0, or skips the whole answer, or all rows name one parent |
| EagerLimits.LimitStarvesSibling | ent/attachment_query.go:317-324 | with Limit(1) and one row for each of two parents the second gets nothing, though its own limited query returns its row |
| EagerLoading.EachRowOnce | ent/attachment_query.go:497-507 | each row of the answer is handed to exactly one node: the lists' lengths sum to their number, repeated ids or not |
| EagerToOne.Keys | ent/attachmentjob_query.go:603-614 | nodes by key, and the non-null keys without duplicates |
| EagerToOne.LoadToOne | ent/attachmentjob_query.go:602-633 | no error; the id list sent is duplicate-free and exactly the non-null keys; every node gets the row of the answer its key names, nodes with a null key or no row stay unset |
| EagerToOne.AssignOne | ent/attachmentjob_query.go:622-632 | the assignment loop: every node ends with the last row of its key; an error return needs a row nobody asked for |
| EagerToOne.SqlAll | ent/attachmentjob_query.go:500-542 | every edge of every job is what its full row calls for from the answers for the full rows, independent of the columns selected; with unique ids and nothing cut off, the edge is the selected part of the kept row whose id is the job's key, string or uuid, and unset iff there is none |
| EagerToOne.EdgeIsWhole | ent/attachmentjob_query.go:602-633 | under unique ids the answer for an edge holds the row of every key iff the edge query's limit and offset cut nothing off |
| EagerToOne.EveryEdgeFound | ent/attachmentjob_query.go:512-535 | every job of a page gets exactly the rows its keys name, on every edge, iff no edge query's limit or offset cuts its answer |
| EagerToOne.EdgesRight | ent/attachmentjob_query.go:544-572 | the same for a page of rows, edge by edge |
| EagerToOne.AtMostOneMatch | ent/attachmentjob_query.go:557-570 | under a unique id the row found is the only one |
| EagerToOne.UnselectedKeyLosesEdge | ent/attachmentjob_query.go:695-706 | without the added key column the projection would change the result |
| BulkCreate.SaveBulk | ent/attachmentjob_create.go:1207-1260 | the builder's own error first; then, with hooks that edit, replace, refuse or spoil: exactly one batch holding spec i from builder i, or no batch and no mutation newly marked done; which of the two, and the error, are decided by the first builder that stops the chain, then the database, then the last spoiler; a mutation whose call returned without error is done and carries its row's id |
| BulkCreate.Bulk.Mutate | ent/attachmentjob_create.go:1218-1251 | the same for the chain from any builder and any of its hooks on, by recursion through all later builders |
| BulkCreate.Bulk.Save | ent/attachmentjob_create.go:1223-1246 | the mutator proper: check first, then the passed mutation, its spec, and the next builder or the insert |
| BulkCreate.DefaultsSuffice | ent/attachmentjob_create.go:305-360 | after defaults, check passes iff both foreign keys are given and a given status is valid |
| BulkCreate.DefaultsFill | ent/attachmentjob_create.go:305-326 | field by field, a given value is kept and an absent one takes its default: now, pending, no attempts, a fresh id |
| BulkCreate.CheckIs | ent/attachmentjob_create.go:329-360 | check accepts iff all required fields are there and the status is one of the seven; otherwise it names a missing field or the unknown status |
| BulkCreate.BatchIsFilled | ent/attachmentjob_create.go:1214-1217 | without hooks, every row of the batch a bulk save issues holds what its builder was given and the default for the rest |
| BulkCreate.EnqueuedRows | cmd/warm.go:182-190 | builders given a media key and an event pass check, and the batch is in order one pending job per key with no attempts |
| BulkCreate.FirstStopIsFirst | ent/attachmentjob_create.go:1223-1231 | the chain stops iff some builder stops it, and then by the first that does |
| BulkCreate.InsertedRowsAreChecked | ent/attachmentjob_create.go:1223-1228 | if no hook replaces the mutation, every inserted row passed check |
| BulkCreate.SwapEscapesCheck | ent/attachmentjob_create.go:1223-1238 | for any builders and hooks around it, what a replacing hook passes on is what is issued once the later hooks have had it; whether an insert is issued is the same for any other replacement, and the outcome is the database's answer to the replaced rows |
| BulkCreate.CheckedIsInserted | ent/attachmentjob_create.go:1223-1228 | the mutation checked is the one inserted, for every payload of a builder's hooks, iff none of them replaces the mutation |
| BulkCreate.OnlyStatusEscapes | ent/attachmentjob_create.go:329-360 | under a database that refuses nulls in required columns, an inserted row passes check except for an unknown status or a status or attempt count left to the column default |
| BulkCreate.UncheckedRowInserted | ent/attachmentjob_create.go:345-349 | a concrete builder that passes check and whose row with an unknown status is taken by any database that only minds nulls |
| BulkCreate.NullRowRefused | ent/migrate/schema.go:48-65 | where the hook drops the media key the insert is issued too, and the database is what refuses it |
| BulkCreate.NoHooks | ent/attachmentjob_create.go:1254-1259 | without hooks the batch goes in iff every builder passes check and the database takes these rows, and row i is builder i's |
| WorkerLoop.RunWorkerLoop | cmd/worker.go:82-136 | for any stream of results and errors and any moment of cancellation: stops at the first error-free cycle that brings succeeded + permanently failed to maxJobs, else on cancellation; once is exactly one Run; the totals reported are the sums over exactly the cycles taken |
| WorkerLoop.StopIsFirstAndTight | cmd/worker.go:86-91 | the bound is reached from that cycle on and at none before, and overshot by less than that cycle's succeeded + permanently failed |
| WorkerLoop.OnlyTerminalCounts | cmd/worker.go:115-118 | over two streams whose cycles succeed and permanently fail as many jobs, whatever their retrying, lost claims and errors, the loop stops after the same cycle for the same reason |
| WorkerLoop.UnfinishedNeverStops | cmd/worker.go:86-91 | a stream that only retries, loses claims and errs is never stopped by the bound |
| WorkerLoop.IdleTracker.Record | sync/idle_tracker.go:24-35 | reports exactly the step from busy to empty |
| WorkerLoop.IdleLoggedOncePerStretch | sync/idle_tracker.go:24-35 | one idle line per stretch of empty polls, at its first, errors counting as work |
| Reprocess.ResetCursorAndAudit | cmd/reprocess.go:144-197 | under a fault at any step: succeeds iff no needed statement fails and the cursor is not ambiguous; then exactly one cursor for the resource at the requested position, all others kept, and one new running event; otherwise both tables are as before and the error is that of the first step to go wrong |
| Reprocess.RunReprocess | cmd/reprocess.go:43-121 | an audit event exists iff resource name, flags, components, source system and reset were good, else nothing changed and the error says which of them failed first; the pass runs on the reset tables and only the stamp touches them after it; if the pass leaves the event running, its final status is success iff the pass succeeded and the stamp was written, failed iff it failed and was stamped, running iff the stamp failed |
| Reprocess.FlagsExactly | cmd/reprocess.go:55-69 | the flags are good iff exactly one of --all and --from is given and --from parses |
| Reprocess.ResetMeans | cmd/reprocess.go:154-179 | row by row: one row of the resource and it is the reset one, under the id it had if it had one; all other rows as they were |
| Reprocess.ResetKeepsUnique | cmd/reprocess.go:154-169 | one cursor per resource is kept |
| Reprocess.ResetIsIdempotent | cmd/reprocess.go:171-179 | resetting again to the same position changes no cursor |

## Left out

- SQL text, Postgres, drivers, contexts, logging, sleeps and flag parsing: tables are maps, each statement is one atomic step, timestamps come from a ticking clock.
- uuids are naturals with 0 for uuid.Nil, since only their order and equality matter; that later v7 ids sort above earlier ones is not used.
- The cursor of `ClaimBatch`, rate limits, downloads and storage: a worker is any sequence of legal status moves and media links.
- Inserts into attachment_job by a sync running at the same time as `warm` (`EnqueueAttachmentJobs`), and listing or media changes during a run: runs are serialised with each other and with sync.
- Warm.WarmSyncEvent: in the protocol the lookup and the creation of the event are one step, because workers do not touch sync_event; two concurrent `warm` commands could open two events.
- WarmProtocol.RunIsHistory: the update of a page none of whose rows is to be canceled is a step that changes nothing in the protocol, where the code issues no statement.
- Histories are finite: an endless worker is covered by its finite prefixes, and the worker loop by an arbitrary finite moment of cancellation.
- WorkerLoop.RunWorkerLoop: counters are unbounded and non-negative, because 64-bit totals of processed jobs do not wrap in practice.
- NodeLookup.Noders: the resolver is a function of the id, and collecting GraphQL fields does not change which rows are found; a failing field collection is a failing table query.
- EagerToOne.LoadToOne: an unselected non-nullable key column reads as null here and as the zero value there, where it would be queried; the added columns keep either from happening in a query with the edge.
- EagerLoading.LoadToMany: interceptors, raw SQL modifiers, nested edges, named edges and failing edge queries are not modelled; a failing query returns its error before any list is filled. Predicates, chosen columns, order, limit and offset of the edge query are.
- BulkCreate.SaveBulk: a hook that calls next more than once, the type test on the mutation, conflict options and constraint-error wrapping are not modelled; the done flag is kept per builder, not per mutation object.
- Reprocess.RunReprocess: resource-name normalisation and component setup appear as their outcome only, and the configuration overrides not at all; the pass is an arbitrary function of the tables it starts from.
- Generated setters, upserts and the other entities' clients, pagination arguments, `doctor`, `config`, `serve`, `migrate`, `init` and storage cleanup: flat or single-branch code.
