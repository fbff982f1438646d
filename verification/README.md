# Verified model of the table-commit engine and the event broker

This project models two parts of the catalog server and proves what they guarantee.

**The table-commit engine.** `CommitTable` locks a row inside a retry loop, checks the request's
requirements against the row, runs the request's updates on a copy of its metadata, and writes the
row or backs out. The model has these layers:

- *Numbers* (`Binary64.dfy`): an integer that passes through JSON becomes its nearest binary64 value
  (section 4.3.1 of IEEE 754-2019), and is read back as a 64-bit integer.
- *Metadata* (`TableMetadata.dfy`, `Updates.dfy`, `Handlers.dfy`, `Requests.dfy`): the keys the engine
  looks at, the 23 updates, what each handler does, and a whole request; `Parsing.dfy`: which bodies parse, and to what.
- *JSON* (`MetadataJson.dfy`, `RoundTrips.dfy`, `Presented.dfy`, `InsertedRows.dfy`, `Exactness.dfy`): the object that
  metadata is written as, what the engine reads in it, and that loading a row is writing and reading it.
- *Effects* (`Effects.dfy`): exactly when each update succeeds and what is then found where.
- *The processor* (`Processor.dfy`): a class whose handlers rewrite its `metadata` field step by step
  and whose `Apply` regroups a request by action; proved equal to running a stable sort of the request.
- *Order* (`StableSort.dfy`, `Reordering.dfy`, `Inversions.dfy`, `Settled.dfy`, `Selection.dfy`): what reordering a request
  preserves, and where it differs from request order.
- *Errors* (`Failures.dfy`): what a failing update and a failing request leave behind.
- *Invariants* (`SnapshotIntegrity.dfy`, `Families.dfy`, `Attributes.dfy`, `Cleanup.dfy`): snapshots,
  references and log; schemas, specs and sort orders; statistics, keys and counters.
- *Commits* (`Commits.dfy`, `Verdicts.dfy`, `CommitIntegrity.dfy`, `Transactions.dfy`): the closures that decide
  a commit, when each verdict comes up, and what one commit keeps from loaded row to loaded row.
- *Concurrency* (`Protocol.dfy`, `History.dfy`, `Replies.dfy`, `Concurrency.dfy`): any number of clients and tables with
  row locks, lock timeouts, retries, commits, lost or unacknowledged commits and rollbacks, as a state machine.
- *The retry loop* (`Locks.dfy`), and *the copy on the heap* (`JsonHeap.dfy`) with the handlers that write
  inside nested maps (`NestedWrites.dfy`), and its tie to the rest (`Copies.dfy`).

**The event broker.** `Events.dfy` has topics and channels, `Hub.dfy` and `Delivery.dfy` the broker as a
state machine with overlapping publications, `Broker.dfy` the broker as a class over channel objects.

Where the code and its comments disagree the model follows the code. The comment at
`internal/api/handlers/updates/processor.go:71` says that metadata is unchanged on error. What is unchanged is
the caller's metadata (`JsonHeap.CopyThenWrite`) and the stored row (`Protocol`); the processor's own metadata
keeps the effects of the updates that completed before the failing one (`Failures.FailingRequest`, with
`Failures.HalfDone` as an input where that shows), while the failing update itself changes nothing
(`Failures.UpdateIsAtomic`). Requirements of unknown type, `assert-create` and
`assert-last-assigned-partition-id` are accepted unchecked, as the code does.

Some statements one would expect are false of the code. For each there is an input and the condition under
which it does hold:

- Reordering is not execution in request order: `Selection.MinusOneDependsOnOrder`,
  `Selection.ReplacingAnEntryFails`, `Selection.SelectingAheadSucceeds`. For two updates the condition is exact,
  over all metadata (`Inversions.TwoUpdatesAgreeExactly`) and over metadata as commits find it
  (`Settled.SettledUpdatesAgreeExactly`); for longer requests it is sufficient, `Reordering.RequestOrderAgreement`.
- last-column-id can fall when a row is loaded again, after a hint near 2^63: `Families.LargestHintIsLost`;
  exactly when, `CommitIntegrity.CommitOnMark` and `History.MarkNeverFallsExactly`.
- Ids assigned from 2^53 on can merge when the row is loaded again: `Families.AssignedIdsCanMerge`; exactly
  when, `Families.AssignedIdMergesExactly` for one id, `Families.AssignedIdsMergeExactly` for any number of them,
  and `CommitIntegrity.CommitMergesExactly` for a commit. Likewise for statistics: `CommitIntegrity.StatisticsMergeExactly`.
- A snapshot with a large id can be added and then not be found by the reference that names it; exactly when,
  `Concurrency.PublishingNeedsExactId`.
- A new table's selections are valid exactly for id 0: `Families.InitialSelections`.
- Commits to single tables never deadlock, `Replies.CommitsNeverDeadlock`; transactions over several tables can,
  `Replies.TransactionsCanDeadlock`, until a lock times out.
- Events of different namespaces can share a topic: `Events.NestedNamespacesCanMeet`; for namespaces without a
  slash, exactly when they are about the same name, `Events.TopicsTellApart`.
- An event that concerns "*" is offered twice to some subscribers; exactly when,
  `Events.NeverTwiceExactlyAwayFromWildcard`.

To check the project: `dafny verify dfyconfig.toml`.

## Model

| member | source | states |
|---|---|---|
| Binary64.SmallSurvives | internal/api/handlers/updates/util.go:34-51 | every integer up to 2^53 in magnitude is read back unchanged after a JSON copy |
| Binary64.RoundIsNearestDouble | internal/api/handlers/updates/util.go:15-28 | the copied numeral is a binary64 value at least as close as any other one |
| Binary64.TiesGoToEven | internal/api/handlers/updates/util.go:15-28 | of two equally close values it is the one with the even significand |
| Binary64.OrderKeptExactly | internal/api/handlers/updates/util.go:34-51 | reading keeps the order of all integers up to b if and only if b is at most 2^63 - 513 |
| Binary64.ReadableExactly | internal/api/handlers/updates/util.go:34-51 | beyond that integer every reading is the smallest int64, up to it none is above 2^63 - 1024 |
| Binary64.SuccessorReading | internal/api/handlers/updates/util.go:34-51 | one more than a surviving integer reads back as that integer if and only if it is at least 2^54, or at least 2^53 and divisible by four |
| Binary64.ReadIsIdempotent | internal/api/handlers/updates/util.go:10-51 | a second copy changes no reading, for every integer |
| Binary64.MergeBoundary | internal/api/handlers/updates/util.go:34-51 | 2^53 is the bound: 2^53 + 1 reads back as 2^53, and below it no two ids merge |
| ItemLemmas.ReloadTwice | internal/api/handlers/updates/processor.go:63-67 | metadata that was loaded is unchanged by the processor's copy |
| RoundTrips.ReloadIsWriteThenRead | internal/api/handlers/updates/util.go:10-30 | for metadata that presents a JSON object, reading the object it is written as gives exactly what the model's loading and copying give, member by member |
| Presented.RowsAreWrittenAndRead | internal/api/handlers/table.go:369-376 | so it is for every row committed in any run of created and registered tables, when it is loaded and when the processor copies it |
| Exactness.ReloadChangesNothingExactly | internal/api/handlers/updates/util.go:10-30 | loading or copying leaves metadata as it is if and only if every id, mark, time and sequence number survives and every other number is a binary64 |
| Copies.MembersOnlyRounded | internal/api/handlers/updates/util.go:10-30 | members the engine does not look at keep names, texts, flags, lengths and nesting; only numbers are rounded |
| Copies.CopyOfTree | internal/api/handlers/updates/util.go:10-30 | a loaded JSON value is the one whose tree the heap copy makes of the original's tree |
| Copies.TreesTellApart | internal/api/handlers/updates/util.go:10-30 | different JSON values have different trees |
| Copies.CopyReadsAlike | internal/api/handlers/updates/util.go:34-130 | in a copied object the engine's getters read exactly what they read in the original |
| Copies.HeapCopyIsReload | internal/api/handlers/updates/processor.go:63-67 | the copy on the heap of metadata's object is an object in which the engine reads what the model's copy holds |
| Copies.MetadataShows | internal/api/handlers/updates/util.go:94-130 | the tree of metadata's object shows its properties, references and current snapshot as the in-place handlers find them |
| Updates.OrderListsEachActionOnce | internal/api/handlers/updates/processor.go:13-54 | the dependency table lists each of the 23 actions exactly once, at its position |
| Updates.OrderOfActions | internal/api/handlers/updates/processor.go:13-54 | own attributes, then additions before what refers to them, kind by kind, then properties, removals in reverse order, and keys |
| Parsing.ParsesExactlyWhenWellTyped | internal/api/handlers/updates/processor.go:136-209 | an update parses if and only if its action is known and each field of that action is absent, null or of its type |
| Parsing.ParsesBack | internal/api/handlers/updates/processor.go:136-209 | every update with 64-bit integers parses back, field by field, from the body written for it |
| Parsing.NullIsZero | internal/api/handlers/updates/types.go:31-189 | null decodes as the zero value of its field's type, also within lists and maps, and as nothing where the field is a pointer or an object |
| Parsing.AbsentIsNull | internal/api/handlers/updates/processor.go:136-209 | a null field parses like an absent one, for every action and body |
| Requests.ParseAllSpec | internal/api/handlers/updates/processor.go:119-131 | a request parses exactly when every update does, in place; otherwise the first bad one is reported |
| UpdateProcessor.ContainsKey | internal/api/handlers/updates/snapshot.go:36-42 | the search loop finds an id exactly when some entry has it |
| UpdateProcessor.MaxIntInSlice | internal/api/handlers/updates/util.go:144-154 | the loop computes the largest readable id, at least 0 |
| UpdateProcessor.FilterSlice | internal/api/handlers/updates/util.go:133-141 | the loop keeps exactly the entries whose id is not to be removed, in order |
| UpdateProcessor.RemoveItemsById | internal/api/handlers/updates/util.go:164-195 | list left and error reported, for the empty, protected, emptied and normal cases |
| UpdateProcessor.Processor.ApplyAddSchema | internal/api/handlers/updates/schema.go:10-64 | id assignment, duplicate check and last-column-id, on success and on error |
| UpdateProcessor.Processor.ApplySetCurrentSchema | internal/api/handlers/updates/schema.go:68-103 | selects the given id, or for -1 the last entry, if present |
| UpdateProcessor.Processor.ApplyRemoveSchemas | internal/api/handlers/updates/schema.go:106-120 | removes entries by id unless the current one is among them |
| UpdateProcessor.Processor.ApplyAddSpec | internal/api/handlers/updates/partition.go:10-55 | the same for partition specs and last-partition-id |
| UpdateProcessor.Processor.ApplyAddSnapshot | internal/api/handlers/updates/snapshot.go:17-64 | list, last-sequence-number and log after an addition, and the state left by each error |
| UpdateProcessor.Processor.ApplySetSnapshotRef | internal/api/handlers/updates/snapshot.go:68-116 | reference written in place, and the current snapshot with it for branch main |
| UpdateProcessor.Processor.ApplyRemoveSnapshots | internal/api/handlers/updates/snapshot.go:120-167 | removal refused while a reference or the current id is among the ids |
| UpdateProcessor.Processor.ApplyRemoveSnapshotRef | internal/api/handlers/updates/snapshot.go:170-189 | reference deleted, and the current id with it when main was a branch |
| UpdateProcessor.Processor.ApplySetStatistics | internal/api/handlers/updates/statistics.go:10-41 | replaces the statistics of the snapshot |
| UpdateProcessor.Processor.ApplySetProperties | internal/api/handlers/updates/properties.go:52-64 | merges the update into the properties |
| UpdateProcessor.Processor.Apply | internal/api/handlers/updates/processor.go:72-111 | metadata and failure after the grouped, reordered, in-place run equal the fold of the handlers over the stable sort of the parsed request; the handlers that ran are the whole sorted request on success, and otherwise a prefix of it whose last update is the one that failed |
| Failures.UpdateIsAtomic | internal/api/handlers/updates/processor.go:215-280 | a handler that reports an error has changed nothing |
| Failures.FailingRequest | internal/api/handlers/updates/processor.go:72-98 | a failing request leaves the metadata as it was if it does not parse, and otherwise exactly what the updates before the failing one did in processing order |
| Failures.UnchangedExactly | internal/api/handlers/updates/processor.go:69-98 | it leaves the metadata unchanged if and only if it does not parse or the updates that completed amount to no change |
| Failures.FirstInOrderFails | internal/api/handlers/updates/processor.go:69-98 | in particular when the first update in processing order fails; the request then reports that update's error |
| Failures.AdditionsUnchangedExactly | internal/api/handlers/updates/processor.go:69-98 | for failing requests of additions only, exactly then |
| Failures.HalfDone | internal/api/handlers/updates/processor.go:69-98 | a failing request that leaves changed metadata: set a new location, then remove a reference without a name |
| UpdateProcessor.CheckUnknown | internal/api/handlers/updates/processor.go:100-108 | the trailing check for unknown actions never reports one |
| Effects.UuidAndVersionAndLocation | internal/api/handlers/updates/properties.go:11-49 | exactly when a UUID, a format version and a location are accepted, and that nothing else changes |
| Effects.PropertyByProperty | internal/api/handlers/updates/properties.go:52-83 | key by key, what setting and removing properties leaves |
| Effects.EntryAdded | internal/api/handlers/updates/schema.go:10-64 | an entry is added, at the end, if and only if its id is new; the mark becomes the largest of mark, field ids and hint |
| Effects.EntrySelected | internal/api/handlers/updates/schema.go:68-103 | a selection succeeds if and only if its target is present, or is -1 and the last entry has an id; then that id is selected, otherwise nothing changes |
| Effects.EntriesRemoved | internal/api/handlers/updates/util.go:164-195 | removal succeeds if and only if there is nothing to do or the selected entry is spared and an entry is left; what stays keeps its order |
| Effects.SnapshotAdded | internal/api/handlers/updates/snapshot.go:17-64 | a snapshot is added if and only if it has a new id and a timestamp; list and log grow by it at the end, references and current snapshot stay |
| Effects.ReferenceSet | internal/api/handlers/updates/snapshot.go:68-116 | a reference is set if and only if it has a name, is a branch or tag, and its id is present or negative; the other references stay |
| Effects.ReferenceRemoved | internal/api/handlers/updates/snapshot.go:170-189 | a reference is removed if and only if it is named; the other references stay, and the current snapshot unless main was a branch and is removed |
| Effects.SnapshotsRemoved | internal/api/handlers/updates/snapshot.go:120-167 | snapshots are removed if and only if none of them is referenced or current; what stays keeps its order |
| Effects.StatisticsSet | internal/api/handlers/updates/statistics.go:10-41 | statistics replace those of the same snapshot id, their own or the deprecated one, and no others |
| Effects.StatisticsRemoved | internal/api/handlers/updates/statistics.go:44-61 | exactly the statistics of that snapshot are gone |
| Effects.KeyAddedOrRemoved | internal/api/handlers/updates/properties.go:89-136 | an encryption key is added if and only if its id is new and not empty; removal takes exactly that key |
| StableSort.SortedIsStableSort | internal/api/handlers/updates/processor.go:84-98 | the order applied is by table position, keeps each action's subsequence, and has the same members |
| StableSort.SortedIsPermutation | internal/api/handlers/updates/processor.go:84-98 | each update of the request occurs in it as often as in the request |
| StableSort.StableSortIsUnique | internal/api/handlers/updates/processor.go:84-98 | it is the only such order |
| Reordering.WritesOneZone | internal/api/handlers/updates/processor.go:215-280 | each update changes only its own part of the metadata |
| Reordering.ReadsOneZone | internal/api/handlers/updates/processor.go:215-280 | each update's effect and error depend only on that part |
| Reordering.SwapNeighbours | internal/api/handlers/updates/processor.go:13-54 | out-of-order neighbours that do not clash can be swapped with the same final metadata |
| Reordering.RequestOrderAgreement | internal/api/handlers/updates/processor.go:72-111 | if a request succeeds in request order and reordering turns round no clashing pair, it succeeds with the same metadata |
| Inversions.TwoUpdatesAgreeExactly | internal/api/handlers/updates/processor.go:13-54 | a request of two updates agrees with request order on all metadata if and only if the two are in processing order or do not clash; clashes can be read off the request |
| Settled.SettledUpdatesAgreeExactly | internal/api/handlers/updates/processor.go:13-54 | the same on metadata whose current schema and default spec are present, whose ids were read from JSON and whose snapshots are integral, with the smaller set of clashes that such metadata can show; for updates with 64-bit integers |
| Settled.TablesStaySettled | internal/api/handlers/table.go:364-466 | such is the metadata every commit finds in a created or registered table, once its current schema and default spec are present |
| Reordering.AdditiveRequestsAgree | internal/api/handlers/updates/processor.go:13-54 | so for every request without removals and without -1 targets |
| Reordering.SamePerActionSameOutcome | internal/api/handlers/updates/processor.go:119-131 | requests with the same per-action subsequences have the same outcome |
| Selection.MinusOneSelectsLastAdded | internal/api/handlers/updates/schema.go:74-101 | when the last selection of a kind is -1, it selects the last entry of that kind the request adds, wherever both stand, and the entry is in the result |
| Selection.AssignedIdsAreConsecutive | internal/api/handlers/updates/schema.go:17-34 | in any successful request whose additions of a kind lack ids, wherever they stand, they get the consecutive ids after the largest one present, in request order; what the request removes of that kind goes afterwards |
| Selection.RequestMergesExactly | internal/api/handlers/updates/util.go:144-154 | if it removes none of that kind, its ids are distinct after store and load if and only if the assigned ones survive |
| Selection.MinusOneDependsOnOrder | internal/api/handlers/updates/processor.go:19-29 | "add A, select -1, add B" selects B, while request order selects A |
| Selection.ReplacingAnEntryFails | internal/api/handlers/updates/processor.go:44-49 | "remove schema x, add schema x" is refused as a duplicate, while request order replaces it |
| Selection.SelectingAheadSucceeds | internal/api/handlers/updates/processor.go:19-21 | "select x, add x" succeeds although request order fails |
| SnapshotIntegrity.InitialIsIntegral | internal/api/handlers/table.go:246-263 | a new table has integral snapshots |
| SnapshotIntegrity.UpdateKeepsIntegral | internal/api/handlers/updates/snapshot.go:17-189 | every update, failing or not, keeps snapshot ids unique, references and current id resolved, main equal to the current snapshot, the log covering, sequence numbers bounded |
| SnapshotIntegrity.RequestKeepsIntegral | internal/api/handlers/updates/processor.go:72-111 | so does every request, successful or stopped midway |
| SnapshotIntegrity.ReloadKeepsIntegral | internal/api/handlers/updates/util.go:10-30 | so does storing and loading, although ids pass through binary64 |
| SnapshotIntegrity.RequestLog | internal/api/handlers/updates/snapshot.go:55-61 | the old log is a prefix of the new one, longer by the number of add-snapshot updates on success |
| Families.RunKeepsFamily | internal/api/handlers/updates/util.go:164-195 | any list of updates keeps schema, spec and sort-order ids unique and a valid selection valid |
| Families.CannotRemoveAllUnreachable | internal/api/handlers/updates/util.go:190-192 | per kind: while the selected entry of that kind is present, no update that removes entries of that kind fails for removing them all |
| Families.NeverRemovesAll | internal/api/handlers/updates/util.go:190-192 | with the current schema and the default spec present, no request fails so, whatever the sort orders |
| Families.RunKeepsColumns | internal/api/handlers/updates/schema.go:36-60 | within any list of updates, failing or not, last-column-id keeps bounding every top-level field id |
| Families.RunOnMark | internal/api/handlers/updates/schema.go:36-60 | the mark never goes down within a request, and ends readable if and only if it began so and every column hint is at most 2^63 - 513 |
| Families.ReloadOnColumns | internal/api/handlers/updates/schema.go:36-60 | after store and load the bound still holds if and only if the mark was readable or no field id is above the smallest int64 |
| Families.LargestHintIsLost | internal/api/handlers/updates/schema.go:50-60 | the hint 2^63 - 1 is stored as it is and read back as the smallest int64 |
| Families.InitialSelections | internal/api/handlers/table.go:246-263 | a new table's selections are valid if and only if its schema, spec and sort order have id 0 |
| Families.MissingIdIsAssigned | internal/api/handlers/updates/schema.go:17-34 | an entry without id is accepted and gets one more than the largest id |
| Families.ConsecutiveIds | internal/api/handlers/updates/schema.go:17-34 | k such entries get consecutive ids and nothing else changes in the list |
| Families.RunKeepsExactIds | internal/api/handlers/updates/schema.go:17-34 | with room below 2^53 assigned ids survive the JSON copy |
| Families.AssignedIdsCanMerge | internal/api/handlers/updates/util.go:144-154 | without room, a list with distinct ids has a duplicate after it is stored and loaded |
| Families.AssignedIdsMergeExactly | internal/api/handlers/updates/util.go:144-154 | k ids assigned after the largest id of a loaded list are distinct from all ids after store and load if and only if k is 0, or the last of them is at most 2^53, or k is 1 and the largest id is between 2^53 and 2^54 and not divisible by four |
| Families.RunMergesExactly | internal/api/handlers/updates/schema.go:17-34 | so for any list of additions without ids |
| Families.AssignedIdMergesExactly | internal/api/handlers/updates/util.go:144-154 | for one id that happens if and only if the largest id is at least 2^54, or at least 2^53 and divisible by four |
| Families.ReloadKeepsSelection | internal/api/handlers/updates/schema.go:68-103 | a valid selection is still valid after store and load, whatever the ids |
| Attributes.RequestKeepsOnePerId | internal/api/handlers/updates/statistics.go:27-40 | every request keeps statistics unique per snapshot id and encryption keys per key id |
| Attributes.RequestAdvances | internal/api/handlers/updates/properties.go:11-39 | a non-empty table UUID stays; format version (kept within 1..3), last-sequence-number, last-column-id and last-partition-id do not go down |
| Cleanup.CleanupSucceedsExactlyWhenUnused | internal/api/handlers/updates/snapshot.go:120-189 | a request of reference and snapshot removals succeeds if and only if nothing it removes is in use once its references are gone; then exactly the other snapshots are left, in order, and nothing else changes |
| Cleanup.IntegralIsResolved | internal/api/handlers/updates/snapshot.go:120-189 | integral metadata without negative reference ids meets that theorem's premise |
| Commits.RunClosure | internal/api/handlers/table.go:364-466 | requirement loop, processor run and new row come to the verdict the theorems are about |
| Verdicts.RequirementMet | internal/api/handlers/table.go:731-783 | what each kind of requirement asks: the UUID, or null for a value that cannot be read and otherwise exactly that value |
| Verdicts.RefRequirementMet | internal/api/handlers/table.go:738-752 | a reference is required to be at one snapshot, or not to be readable |
| Verdicts.RequirementMetInObject | internal/api/handlers/table.go:731-783 | the same by member name on the row's JSON object |
| Verdicts.DecidesExactly | internal/api/handlers/table.go:395-446 | a commit is refused for a requirement, refused for an update, broken, or written, each exactly when: all requirements hold, the request runs, and the result has a location and a UUID of at least eight characters |
| Verdicts.WrittenRow | internal/api/handlers/table.go:405-446 | the written row field by field: result with the new time, old location as the previous one, new location from base, version 1, time and the first eight characters of the UUID |
| Verdicts.CommitsNeverBreak | internal/api/handlers/table.go:405-424 | in any run, a table that started with a location and a UUID of eight characters never makes a commit break |
| CommitIntegrity.WriteComesFromRequest | internal/api/handlers/table.go:395-446 | a written row comes from the loaded metadata by the request, whose requirements all held on it |
| CommitIntegrity.InsertedIsSound | internal/api/handlers/table.go:246-263 | a created or registered row is sound when loaded |
| InsertedRows.CreatedRowHolds | internal/api/handlers/table.go:233-263 | a created table, when first loaded, is what the engine reads in the object with those fifteen members; last-column-id is the largest readable top-level column id |
| InsertedRows.CreatedRowPlace | internal/api/handlers/table.go:265-267 | where a created row's first metadata is said to be |
| InsertedRows.TrimmedPath | internal/api/handlers/table.go:627 | a registered table's location is the registered path less its ending, if it has it |
| InsertedRows.RegisteredRowHolds | internal/api/handlers/table.go:623-645 | a registered table holds four members and is at the registered path |
| CommitIntegrity.CommitKeepsSound | internal/api/handlers/table.go:395-466 | every commit keeps rows sound from load to load, without any premise on the request |
| CommitIntegrity.CommitExtendsLog | internal/api/handlers/updates/snapshot.go:44-61 | the loaded log of the old row is a prefix of the loaded log of the new one |
| CommitIntegrity.CommitKeepsDirection | internal/api/handlers/updates/properties.go:11-39 | UUID, format version and last sequence number as later readers see them do not go back |
| CommitIntegrity.CommitOnMark | internal/api/handlers/updates/schema.go:50-60 | as later readers see it, a commit does not lower last-column-id if and only if every hint of the request is at most 2^63 - 513 or the mark was the smallest int64 |
| CommitIntegrity.CommitRaisesOtherMarks | internal/api/handlers/updates/partition.go:36-51 | no commit lowers last-partition-id |
| CommitIntegrity.CommitOnColumns | internal/api/handlers/updates/schema.go:36-60 | last-column-id bounds the columns after a commit if and only if those hints are readable or no field id is above the smallest int64 |
| CommitIntegrity.CommitKeepsIds | internal/api/handlers/updates/schema.go:17-34 | per kind: a commit with room for the ids it assigns to that kind's additions without ids keeps that kind's ids distinct across store and load |
| CommitIntegrity.CommitMergesExactly | internal/api/handlers/updates/schema.go:17-34 | per kind: a commit that gives and removes no ids of that kind keeps them distinct across store and load if and only if the assigned ids survive |
| CommitIntegrity.CommitKeepsSelection | internal/api/handlers/updates/schema.go:68-120 | per kind: every commit keeps a valid selection valid |
| CommitIntegrity.CommitKeepsStatistics | internal/api/handlers/updates/statistics.go:10-41 | statistics stay unique across store and load while deprecated ids survive |
| CommitIntegrity.StatisticsMergeExactly | internal/api/handlers/updates/statistics.go:10-41 | setting statistics under an id keeps them unique at the next load if and only if the id survives or its reading is not taken |
| CommitIntegrity.InsertedIsTidy | internal/api/handlers/table.go:623-638 | a created or registered row has bounded columns, distinct ids of each kind and unique statistics when loaded |
| Transactions.CheckTable | internal/api/handlers/transaction.go:112-163 | reports the row if it exists and its requirements hold; otherwise 404 or 409 |
| Transactions.CheckAll | internal/api/handlers/transaction.go:66-84 | all rows in request order if every table passes; otherwise the reply of the first that does not |
| Protocol.FireKeepsInv | internal/api/handlers/table.go:364-466 | every step of any client (lock, time out, close, commit, fail, abort) keeps locks, phases, history and ownership consistent |
| Protocol.CommitBase | internal/api/handlers/table.go:369-376 | the row a commit writes over is the row its client read, because the lock is still held |
| History.LinearHistory | internal/api/handlers/table.go:364-517 | in every run the committed values of a row form one chain; each link is its predecessor's result under requirements that held on it, with the new time, its location as previous location, and its own location built from the result |
| History.RepliesTellOwnership | internal/api/handlers/table.go:468-517 | a 200 client owns exactly one link, the one it was shown; a 400, 404 or 409 client owns none; a 500 client at most one |
| Replies.AnswersHaveReasons | internal/api/handlers/table.go:477-517 | a client with an answer got it in one event of its own: its transaction committed and the reply is what the rows it then held locked deserve (404 missing, 409 short of a requirement, 400 a failing update, 200 the result), or every attempt timed out (409), or an error or cancellation ended it (500) |
| Replies.LockedExactlyWhileRead | internal/db/lock.go:65-92 | in any run a client holds a table's lock exactly while it is in a transaction that has read that table; nobody who waits or is done holds one |
| Replies.CommitsNeverDeadlock | internal/db/lock.go:26-62 | while a commit to a single table is unanswered, some step other than a timeout, an error or a cancellation can be taken |
| Replies.TransactionsCanDeadlock | internal/api/handlers/transaction.go:66-84 | two transactions that lock the same two tables in opposite order can block each other |
| Replies.FaultsCanHappen | internal/db/lock.go:65-92 | the model leaves no fault out: an unanswered client can meet an error, a returned closure a failing COMMIT with its effect kept or lost, a statement a lock timeout |
| History.HistoryOnlyGrows | internal/db/lock.go:65-92 | committed links are never undone or reordered |
| History.CommittedRowsAreSound | internal/api/handlers/updates/snapshot.go:17-189 | of created and registered tables, every row committed in any run is sound |
| History.RowsProgress | internal/api/handlers/updates/snapshot.go:44-61 | between any two moments of a run from created or registered tables a row's log only grew and nothing monotone went back |
| History.MarkNeverFallsExactly | internal/api/handlers/updates/schema.go:50-60 | in a run, no commit ever lowers last-column-id as loaded if and only if each commit's hints are readable or its base mark was the smallest int64 |
| History.RowsRaiseMarks | internal/api/handlers/updates/partition.go:36-51 | between any two moments of a run last-partition-id does not fall, nor last-column-id while hints are readable |
| History.CommittedColumnsAreBounded | internal/api/handlers/updates/schema.go:36-60 | from the insertion of the table on, while column hints are readable, every committed last-column-id bounds every top-level field id |
| History.CommittedIdsAreDistinct | internal/api/handlers/updates/util.go:144-195 | per kind: while the ids assigned to that kind have room, the committed ids of an inserted table are distinct |
| History.SelectionsStayValid | internal/api/handlers/updates/schema.go:68-120 | per kind: a selection that is valid at one moment of a run is valid at every later one |
| History.CommittedStatisticsAreUnique | internal/api/handlers/updates/statistics.go:10-41 | in inserted tables, while deprecated statistics ids survive, committed statistics are unique per snapshot |
| Concurrency.OneMoveWins | internal/api/handlers/table.go:738-752 | when all clients of a table expect main at the same snapshot and move it to one they add, at most one commit happens |
| Concurrency.OneClientWins | internal/api/handlers/table.go:395-400 | and at most one of them is told it succeeded |
| Concurrency.MoveDefeatsExpectation | internal/api/handlers/updates/snapshot.go:78-113 | a commit that moved main makes the expectation it was based on fail |
| Concurrency.PublishingNeedsExactId | internal/api/handlers/updates/snapshot.go:23-42 | adding snapshot n and moving main to n in one request succeeds if and only if n survives as a JSON number, as every n up to 2^53 does |
| Concurrency.ConsistentCut | internal/api/handlers/transaction.go:66-84 | the rows a multi-table transaction reports were all committed, and all its requirements held, at one moment of the run |
| Locks.Database.ExecuteWithLock | internal/db/lock.go:65-92 | begin, closure, commit or rollback as the answers decide; no transaction is left open |
| Locks.Database.WithLock | internal/db/lock.go:26-62 | the loop makes the attempts and returns the result of the retry specification |
| Locks.VerdictByStep | internal/db/lock.go:65-92 | an attempt goes well exactly when all four steps do, and otherwise answers what its first step that did not answers |
| Locks.TraceByStep | internal/db/lock.go:65-92 | what the database sees of an attempt: begun, committed, in doubt or rolled back, each exactly when |
| Locks.RetryLoop | internal/db/lock.go:26-62 | at most max(0, MaxRetries + 1) attempts, another one only after a lock timeout; success exactly when all steps of the last went well, failure exactly when its first step that did not met another error, cancellation and lock timeout exactly when; one commit on success, otherwise none |
| JsonHeap.DeepCopy | internal/api/handlers/updates/util.go:10-30 | the copy shares no node with the original at any depth and denotes the same value, numbers rounded |
| JsonHeap.WorkingCopy.Do | internal/api/handlers/updates/util.go:112-130 | one in-place write, at the top or in a nested map or list, changes exactly what it says |
| JsonHeap.CopyThenWrite | internal/api/handlers/updates/processor.go:63-67 | whatever is written to the copy, for every sequence of writes cut off anywhere, the caller's tree is unchanged and disjoint |
| JsonHeap.CopyIsExactForDoubles | internal/api/handlers/updates/util.go:10-30 | the copy denotes the same value if and only if every number in it is a binary64 |
| JsonHeap.CopyIsAllDoubles | internal/api/handlers/updates/util.go:10-30 | copying a copy changes nothing |
| JsonHeap.CopyCommutesWithWrite | internal/api/handlers/updates/util.go:10-30 | writing then copying is copying then writing the rounded payload |
| Copies.SetInInJson | internal/api/handlers/updates/util.go:121-130 | setting a member of a nested map shows as that in the JSON object, the map being made if need be |
| Copies.DropInInJson | internal/api/handlers/updates/properties.go:67-83 | deleting from a nested map shows as that, if there is one |
| Copies.AppendInJson | internal/api/handlers/updates/util.go:112-121 | appending to a nested list puts the new element last, the list being made if need be |
| NestedWrites.SetAllPropertiesInPlace | internal/api/handlers/updates/properties.go:52-64 | writing properties one by one into the nested map, in any order of the request's map, comes to the handler's merge and touches no other member |
| NestedWrites.RemovePropertiesInPlace | internal/api/handlers/updates/properties.go:67-83 | deleting them one by one comes to the handler's removal |
| NestedWrites.SetRefInPlace | internal/api/handlers/updates/snapshot.go:95-113 | the in-place writes of set-snapshot-ref leave the tree of the handler's references and current snapshot, and every other member as it was |
| NestedWrites.RemoveRefInPlace | internal/api/handlers/updates/snapshot.go:170-189 | so do those of remove-snapshot-ref |
| Events.WildcardTopic | internal/events/types.go:95-106 | which events have topic "*" |
| Events.TopicParts | internal/events/types.go:95-106 | the topic of a table or view event is its namespace, a slash and its name; of another event its namespace, or "*" |
| Events.TopicsTellApart | internal/events/types.go:95-106 | for namespaces without a slash topics are equal if and only if namespace and name are |
| Events.NestedNamespacesCanMeet | internal/events/types.go:95-106 | with a slash, events of different namespaces can have one topic |
| Events.OfferedTimes | internal/events/broker.go:129-141 | after n offers all n are on record at the end, as many as there is room for are buffered behind what was there, the rest is counted as dropped |
| Events.CopiesDeliverOnce | internal/events/broker.go:92-141 | away from "*", a channel the event concerns has it as newest message if there was room, and any other channel is unchanged |
| Events.OfferedOnce | internal/events/broker.go:100-127 | away from "*", a channel is collected once if its topic matches and not at all otherwise |
| Events.NeverTwiceExactlyAwayFromWildcard | internal/events/broker.go:100-127 | no channel is collected twice if and only if neither topic nor namespace is "*" |
| Hub.FireKeepsRegistry | internal/events/broker.go:46-85 | every step keeps registered channels open and under their own topic, no empty topic, no subscribers after close |
| Hub.NeverPanics | internal/events/broker.go:70-165 | in every interleaving, with repeated and late calls, nothing is sent on a closed channel and none is closed twice |
| Hub.ClosedForGood | internal/events/broker.go:46-67 | after a close every channel is shut, none opens and none is added, in any run |
| Hub.StepsCanHappen | internal/events/broker.go:92-148 | publications can begin at any time, in any order of what they collect, and go on to their end; readers can read what is buffered |
| Delivery.RunKeepsFaithful | internal/events/broker.go:129-141 | what a subscriber received and has buffered is a subsequence of its offers, offers are delivered or counted as dropped, buffers stay within 16 |
| Delivery.NothingDroppedBelowCapacity | internal/events/broker.go:129-141 | a subscriber with a backlog below 16 at every send gets everything, in order |
| Delivery.ReceiveTakesOldest | internal/events/broker.go:27-43 | a reader takes the oldest buffered message and nothing else changes |
| Delivery.DrainingDelivers | internal/events/broker.go:70-85 | reading on gives exactly what is buffered, in order, also after the channel was closed |
| Delivery.FinishedPublicationsWereOffered | internal/events/broker.go:92-141 | a finished publication was offered to each subscribed channel as often as its topic calls for, and to no other |
| Delivery.OfferedExactlyOnce | internal/events/broker.go:92-141 | away from "*" that is exactly once for matching subscribers |
| Delivery.FinishedFirstIsOfferedFirst | internal/events/broker.go:92-141 | a publication that finished before another began precedes it at every subscriber |
| EventBroker.Broker.Subscribe | internal/events/broker.go:46-67 | a new open channel under its topic, or nothing once closed |
| EventBroker.Broker.Unsubscribe | internal/events/broker.go:70-85 | closes the channel if it is registered and otherwise does nothing, any number of times |
| EventBroker.Broker.Publish | internal/events/broker.go:92-148 | every registered channel is offered the event as often as its topic calls for; away from "*" those it concerns have it as newest message if they had room and the others are left alone |
| EventBroker.Broker.Close | internal/events/broker.go:151-165 | all registered channels closed once, none left, again without effect |

## Left out

- JSON text syntax, case-insensitive member matching, numerals that are not integers, and numerals beyond
  the range of binary64.
- Wording of error messages; failures are told apart by action and kind.
- Sharing inside metadata lists: in `Processor` metadata is a value, so spare capacity of slices and payload
  objects shared with the request are not captured there. `JsonHeap` has sharing, for arbitrary sequences of
  writes; it builds payloads afresh and writes filtered lists anew. `NestedWrites` ties it to the handlers that
  write inside nested maps only.
- References' members other than the five the engine writes; rows that come from these handlers have none.
- Null metadata, which never reaches a processor, and the shallow copy `deepCopyMap` falls back to when
  encoding fails.
- CommitKeepsIds: one direction only; `CommitMergesExactly` has both when the request gives and removes no ids of
  the kind. An id given beside assigned ones, or removed, can make the difference.
- Hardware: a float64 outside the range of int64 is converted as on amd64, to the smallest int64; Go leaves the
  result to the implementation. `ReadableExactly`, `LargestHintIsLost`, `CommitOnMark` and `MarkNeverFallsExactly`
  depend on it.
- CommitKeepsStatistics: one direction only; `StatisticsMergeExactly` has both for one update.
- RequestOrderAgreement: one direction only; in a longer request a clash can be undone by later updates.
- SettledUpdatesAgreeExactly: the metadata that tells two updates apart is settled, but no run that leads to it is
  given; requests with 2^53 ids or more in one update are not covered.
- OneMoveWins: at most one commit, not at least one; nothing here says that a client ever gets the lock.
- Creating, dropping and renaming tables while commits run; tables exist from the start of a run.
- A lock timeout reported by COMMIT itself in the protocol: then `commitErr`, which is not reset between
  attempts (`internal/api/handlers/table.go:361`), could outlive its attempt. `Locks` does cover it.
- Requests to `CommitTransaction` without tables, which are answered before any transaction begins.
- Updates in `CommitTransaction`: they are not applied by the code (`internal/api/handlers/transaction.go:155`).
- Uniqueness of metadata locations: the version in them is always 1 (`internal/api/handlers/table.go:786-789`).
- The order of concurrent publications: only publications that do not overlap are ordered.
- HTTP, routing, SQL text, configuration, telemetry, paging, views, scan plans, permissions and leader election.
