# TinyPulse: a verified model

TinyPulse watches endpoints, stores their checks in SQLite, and alerts through notifiers.  Endpoints and
notifiers come from the web UI or from a YAML file.  This project models three parts of it and proves what
they are for.

**Configuration reconciliation.**  `Store` is the database: rows, uid uniqueness, AUTOINCREMENT counters,
the link primary key, foreign keys with cascades.  Over it run validation (`Config`), the sync transaction
(`Sync`), the dry run (`Diff`), the export (`Export`), ejection and the single-item statements (`Items`),
and the API handlers (`Server`).  A committed sync is described by one relation, `Sync.Synced`, that leaves
row ids, times and iteration orders open, so everything proved from it (`SyncLaws`, `Diff`, `ExportLaws`)
holds for every order in which Go may iterate over its maps.  `History` puts all operations into arbitrary
runs and proves what every run keeps.

**Monitoring engine.**  `Fleet` is the worker registry as a step machine in which `kill` is two steps;
`Pipeline` is the write path (calls in flight, bounded channel, single writer) as another; `Window` shows
when the in-memory window and the database agree; `Crew` joins the two machines, so that the workers decide
which checks can overlap; `Alerts` is the alert automaton over unbounded traces;
`State` holds the stats cache with its objects and copies; `Engine` is `check` and the writer as code over
cache, channel and database, and refines the pipeline machine; `Manager` drives the fleet and clears the
memory for serial requests; `Checks` holds the check statements.

**Redis notifier.**  `Redis` writes RESP commands and reads replies.  Its decoder follows the Redis
serialization protocol specification (RESP2), sections 'Arrays' and 'Bulk strings'.

Conventions.  A transaction works on a private copy of the tables and assigns it at commit.  Where a call
can fail for reasons outside the program, the method takes `reliable`; with `reliable` false it may fail at
any such point.  Go map iteration is an arbitrary choice (`:|`) of the next key.  JSON and lowercasing are
the functions of a `Runtime` parameter, URL checks, lowercasing of types and provider construction those of a
`Web` parameter.
`CURRENT_TIMESTAMP` is arbitrary.  A new id is any number not below the counter.

## What the proofs found

- `validate` accepts an endpoint that lists a notifier twice; the sync of it then fails on the link primary
  key (`SyncLaws.ValidButNotCommittable`).  For a validated configuration, marshalable blocks and repeat-free
  lists are the exact condition (`SyncLaws.ValidCommitsIff`).
- `SyncConfig` by itself also accepts a configuration that refers to a notifier it does not define, as long as
  an earlier sync's notifier is still stored (`SyncLaws.OpenButCommittable`); the sync then prunes that
  notifier, so the same configuration does not commit again (`SyncLaws.RetryCommitsIffClosed`).  The program
  never gets there, because parsing validates.
- UI endpoint rows survive every sync, but lose their links to configured notifiers that are pruned, and
  only those (`SyncLaws.UiItemsAreSafe`).
- A generated key may equal a configured uid, and then the export silently loses an item
  (`ExportLaws.ExportMayLoseAnItem`); that is the only way (`ExportLaws.ExportLosesNothing`).
- The repository's README.md, line 129, offers an export as the way to move UI items to a file.  Without a clash
  syncing it commits (`ExportLaws.ExportCommitsIff`).  It gives the store back exactly when the store holds no UI
  item, its notifier JSON is spelled as marshalling spells it, and no default is left to fill in
  (`ExportLaws.ExportSyncsBackIff`).  UI items stay, and a managed twin of each appears
  (`ExportLaws.ExportDuplicatesUiItems`, with a concrete store in `ExportLaws.LoneUiNotifierIsDuplicated`).
- README.md, line 129, also calls the exported file ready to use.  The API accepts notifier types in any letter
  case and stores them as posted, while `validate` wants lower case: one POST of type "Telegram" gives an export
  that does not validate (`History.CapitalTypeSpoilsExport`).  Unless generated keys clash, an export validates
  exactly when every stored type is in lower case (`History.EveryExportIsValidIff`).
- The dry run does not look at the error that may end the reading of its rows.  Its plan for a table is right
  exactly when the whole table was read (`Diff.PlanPredictsIffRead`); otherwise a stored uid is reported as CREATE
  or left out (`Diff.MissedUidIsMisreported`).
- At threshold 1 an endpoint that is down from its first check is never reported
  (`Alerts.FirstFailureIsSilent`); at threshold zero or less nothing is (`Alerts.NoDownWithoutThreshold`).
- `kill` cancels after releasing the lock, so two workers can check one endpoint for a while
  (`Fleet.TwoWorkersMayOverlap`).  There is at most one exactly when the endpoint is registered or held by one
  pending kill, but not both, or the manager has stopped (`Fleet.OneWorkerIff`).
- A complete cleanup keeps cache and database in agreement about an endpoint exactly when none of its rows is
  older than the cutoff, or its younger rows and the checks on their way number fifty
  (`Window.CompleteCleanupKeepsIff`; a failing input is in `Window.CleanupMayBreakAgreement`).
- An endpoint that is paused at startup and has a history starts out of agreement: the cache is filled for
  unpaused endpoints only (`Engine.StartAgreesIff`).
- An interval above 9223372036 seconds overflows the ticker period (`Fleet.TickerPeriodWraps`).

## Model

| member | source | states |
|---|---|---|
| ManagedTable.Upsert | internal/db/sync.go:31-39 | an upsert overwrites the columns of the one row with that uid under its old id, or inserts a managed row under an id never used |
| ManagedTable.UpsertStep | internal/db/sync.go:23-44 | one more upsert extends the set of configured uids dealt with: other rows untouched, uids still unique, provenance kept |
| ManagedTable.PruneReconciles | internal/db/sync.go:98-117 | upserting every configured uid and then pruning the others reconciles the table: UI rows intact, managed rows survive under their id exactly when still configured |
| ManagedTable.ReconciledView | internal/db/sync.go:46-117 | after reconciliation the managed rows, by uid, are exactly the configured entries |
| ManagedTable.ReconciledTwice | internal/db/sync.go:14-145 | reconciling again leaves every row as it is |
| ManagedTable.SettledIsFixed | internal/db/sync.go:14-145 | a table that already shows the configuration is a fixed point of reconciliation |
| Store.KeepEndpointsInv | internal/db/db.go:94-116 | deleting endpoints with both cascades keeps the store invariant |
| Store.KeepNotifiersInv | internal/db/db.go:112-116 | deleting notifiers with the link cascade keeps the store invariant |
| Store.ChecksOfTwice | internal/db/db.go:94 | cascading twice with shrinking sets of endpoints leaves the checks of the smaller set, in order |
| Store.RowsAndMinis | internal/monitor/state.go:128-133 | a row holds its check column by column, and row and check give the same window entry |
| Configuration.ConfigFile.ValidateNotifiers | internal/config/config.go:65-80 | succeeds exactly when every notifier is well formed, in any iteration order; an error names a real defect |
| Configuration.ConfigFile.ValidateEndpoints | internal/config/config.go:82-115 | succeeds exactly when every endpoint is well formed and its references resolve, and then has filled in the defaults of all; an error names a real defect of the original entry |
| Configuration.ConfigFile.Validate | internal/config/config.go:59-118 | succeeds exactly on well-formed configurations, leaves the defaulted configuration, and on failure has changed nothing but defaults |
| Configuration.ValidateSettles | internal/config/config.go:93-107 | passing once is enough: the result is valid (positive intervals and thresholds, known types, closed references) and validating it again changes nothing |
| Configuration.EntryNeeds | internal/config/config.go:62-92 | what an entry needs, with the supported types by name: telegram, pushover and redis for notifiers; http, tcp or none for endpoints |
| Configuration.UidAlphabet | internal/config/config.go:60 | a uid is a non-empty text of ASCII letters, digits, underscore, dot and dash, given by their codes |
| Configuration.DefaultsAre | internal/config/config.go:94-107 | an empty type becomes http, a non-positive interval 60, a non-positive threshold 3, and nothing else changes |
| Configuration.ExampleValidates | internal/config/config.go:59-118 | a configuration with all three notifier types, both endpoint types and an entry left to defaults validates, with the defaults filled in |
| Sync.UpsertNotifiers | internal/db/sync.go:22-44 | upserts every configured notifier in any order, or fails exactly on a block that does not marshal when the database works |
| Sync.UpsertEndpoints | internal/db/sync.go:47-66 | upserts every configured endpoint in any order; new rows start unpaused, old ones keep their pause flag |
| Sync.RelinkOne | internal/db/sync.go:71-92 | the endpoint ends up linked to exactly the listed notifiers and no other endpoint changes; fails exactly on an unknown or repeated notifier |
| Sync.Relink | internal/db/sync.go:70-93 | rewires every configured endpoint in any order and leaves the links of all others alone |
| Sync.SyncConfig | internal/db/sync.go:14-145 | all or nothing: on success the store is reconciled as a whole, on failure it is unchanged and the error names a real fault; with a working database it commits exactly when blocks marshal, no list repeats and every reference resolves |
| Sync.PhasesSync | internal/db/sync.go:95-138 | upserting, rewiring and pruning in this order, with the cascades of the pruning, adds up to the sync relation |
| SyncLaws.SyncKeepsInv | internal/db/sync.go:14-145 | a committed sync keeps provenance, uid uniqueness, link and check integrity, and never leaves a managed endpoint paused |
| SyncLaws.SyncIsExact | internal/db/sync.go:14-145 | afterwards the store shows exactly the configuration: uids, columns and the set of linked notifier uids, nothing missing or extra |
| SyncLaws.SyncedColumns | internal/db/sync.go:31-61 | a synced row holds its configured entry column by column, a notifier the marshalled block |
| SyncLaws.SyncForgetsHistory | internal/db/sync.go:12-13 | syncing one configuration and then another shows the same as syncing the second alone |
| SyncLaws.ShownIsFixed | internal/db/sync.go:14-145 | a store that shows what is requested comes out with identical rows, links and checks |
| SyncLaws.ShownIffFixed | internal/db/sync.go:14-145 | a committed sync leaves rows, links and checks alone exactly when the store already shows what is requested |
| SyncLaws.SyncTwice | internal/db/sync.go:14-145 | a second sync of the same configuration is the identity on rows, links and checks |
| SyncLaws.ClosedCommits | internal/db/sync.go:83-92 | for a closed configuration only marshalling and repeat-freedom decide whether the sync commits; the store has no say |
| SyncLaws.ValidCommitsIff | internal/config/config.go:109-114 | a validated configuration commits, on any store, exactly when its blocks marshal and no list repeats |
| SyncLaws.ValidButNotCommittable | internal/db/db.go:115 | a configuration that validates but that no store lets commit, because a list repeats a notifier |
| SyncLaws.OpenButCommittable | internal/db/sync.go:85 | a store and a configuration with an undefined reference that commits all the same |
| SyncLaws.RetryCommitsIffClosed | internal/db/sync.go:85-87 | after a commit, the same sync commits again exactly when the configuration is closed |
| SyncLaws.UiItemsAreSafe | internal/db/sync.go:104-135 | UI rows and their checks are untouched; a UI endpoint loses exactly its links to managed notifiers that are no longer configured |
| SyncLaws.SurvivorsKeepHistory | internal/db/sync.go:54-60 | a managed endpoint still configured keeps id, pause flag, creation time and checks; one no longer configured goes with all its checks |
| Diff.LoadExisting | internal/db/diff.go:45-55 | with a working database the map read from the managed rows is the table's view by uid; otherwise it may be any part of it, delivered as if it were all |
| Diff.MatchWanted | internal/db/diff.go:114-125 | every configured uid gets exactly one line, the right one, and only unmatched stored uids are left over |
| Diff.PrintLinks | internal/db/diff.go:134-138 | each link line is printed exactly as often as the configuration lists it |
| Diff.DryRun | internal/db/diff.go:12-140 | without changing the store: with a working database exactly one right verdict per uid known to either side, and the link lines; otherwise the plan that follows from the part that was read |
| Diff.PrintAllAsCreates | internal/db/diff.go:144-162 | the plan without a database is the dry-run plan against an empty store, and every item line is a creation |
| Diff.DryRunPredictsSync | internal/db/diff.go:57-138 | every verdict comes true in the sync: CREATE iff a fresh id appears, UPDATE iff the same id changes a compared column, KEEP iff the whole row stays, DELETE iff it is pruned; LINK lines are exactly the resulting connections |
| Diff.PlanPredictsIffRead | internal/db/diff.go:45-77 | the plan made from a part of a table predicts the sync exactly when the part is the whole |
| Diff.MissedUidIsMisreported | internal/db/diff.go:62-77 | a stored uid that was not read is reported as CREATE if configured, although the sync creates nothing for it, and gets no line if not, although the sync prunes it |
| Text.DecimalReads | internal/db/export.go:120 | printed ids read back as the same number |
| Text.DecimalIsPlain | internal/db/export.go:136 | printed numbers have no superfluous leading zero |
| Text.SlugIsSlug | internal/db/export.go:124-129 | the slug consists of words of lower-case letters and digits joined by single underscores, for any name |
| Text.SlugFixesSlugs | internal/db/export.go:124-129 | a name that is a slug already is its own slug |
| Text.SlugIsWords | internal/db/export.go:124-129 | the slug is the words of the lower-case name, joined by single underscores, whatever stands between, before and after them |
| Text.IntoWords | internal/db/export.go:126 | every text is made of words with gaps between, before and after them |
| Text.SuffixDecodes | internal/db/export.go:135-136 | prefix, underscore and number can be taken apart again, whatever the prefix contains |
| Export.GeneratedShape | internal/db/export.go:114-137 | a generated key is a non-empty slug, an underscore and the id, and lies in the alphabet that validation accepts |
| Export.GeneratedKeysDiffer | internal/db/export.go:135-136 | generated keys determine the row id, whatever the names |
| Export.KeyIsWordsAndId | internal/db/export.go:114-137 | the key of any row without uid is the words of its lower-case name and its id joined by underscores, or "item" and the id when the name has no word |
| Export.KeyExample | internal/db/export.go:114-137 | "My Website!" under id 12 becomes my_website_12, "?!" and an empty name item_12, and a row with a uid keeps it |
| Export.ExportNotifiers | internal/db/export.go:24-54 | reads the notifiers in id order, later rows overwriting equal keys; with a working database fails exactly on a block that is not JSON, and the error names such a notifier |
| Export.ConnectedNotifiers | internal/db/export.go:74-94 | lists the keys of the linked notifiers by ascending notifier id |
| Export.ExportEndpoints | internal/db/export.go:57-106 | reads the endpoints in id order with their notifier keys |
| Export.ExportConfig | internal/db/export.go:15-109 | produces the export configuration of the store, and with a working database fails exactly when a stored block is not JSON |
| ExportLaws.KeysDistinctIff | internal/db/export.go:111-116 | two rows share a key exactly when a generated key equals an existing uid |
| ExportLaws.ExportLosesNothing | internal/db/export.go:46-50 | an export has as many items as the store exactly when there is no such clash, for each table |
| ExportLaws.ExportMayLoseAnItem | internal/db/export.go:135-136 | a store with a clash whose export is smaller than the store |
| ExportLaws.ExportKeepsRows | internal/db/export.go:46-102 | without a clash every row is found under its key with its own columns |
| ExportLaws.LaterRowWins | internal/db/export.go:46-50 | even with clashes, a row with no later row under the same key is the one exported under it |
| ExportLaws.ExportedColumns | internal/db/export.go:46-102 | an exported entry holds its row column by column, a notifier the unmarshalled block, and configured rows are exported under their own uid |
| ExportLaws.ListIsLinks | internal/db/export.go:74-89 | an exported list names exactly the linked notifiers, each once when keys are distinct |
| ExportLaws.ExportIsClosed | internal/db/export.go:86-88 | every exported reference resolves within the export, clashes or not |
| ExportLaws.ExportIsWellFormed | internal/config/config.go:59-118 | the exported file passes validation when every notifier type is in lower case, clashes or not |
| ExportLaws.ExportIsWellFormedIff | internal/config/config.go:75-77 | when no item is lost the exported file passes validation exactly when every stored notifier type is one validation supports |
| ExportLaws.ExportIsValidIff | internal/config/config.go:104-106 | validation changes the exported file exactly when some stored threshold is not positive |
| ExportLaws.ExportRequestsView | internal/db/export.go:15-109 | the export of a fully managed store asks for exactly what the store shows |
| ExportLaws.SyncUndoesExport | internal/db/export.go:15-109 | syncing the export of a fully managed store commits and leaves all rows, links and checks as they were |
| ExportLaws.ExportCommitsIff | internal/db/sync.go:89-91 | syncing an exported file, as it is or parsed, commits exactly when its blocks marshal and no list repeats a key; no list does when notifier keys do not clash |
| ExportLaws.ExportUndoesSync | internal/db/sync.go:14-145 | exporting after syncing a valid repeat-free configuration into an empty or fully managed store returns it, up to list order, with no default left to fill in |
| ExportLaws.ExportDuplicatesUiItems | internal/db/export.go:13-14 | syncing the exported file of a clash-free store, as it is or parsed, leaves each UI item as it is and adds a managed twin under a fresh id: with the columns of the endpoint, defaults filled in if parsed, or with the JSON of the notifier unmarshalled and marshalled again |
| ExportLaws.ExportSyncsBackIff | internal/db/sync.go:31-60 | for a clash-free store, syncing its exported file, as it is or parsed, leaves all rows, links and checks as they were exactly when every item is managed, its JSON text is reproduced by marshalling, and, if parsed, nothing was to be filled in |
| ExportLaws.LoneUiNotifierIsDuplicated | internal/db/sync.go:31-39 | a store whose only item is a UI notifier: its exported file commits and never gives it back |
| Items.CreateEndpoint | internal/db/endpoint.go:9-28 | inserts an unmanaged row under a fresh id with the given columns, type defaulting to http, and changes nothing else |
| Items.UpdateEndpoint | internal/db/endpoint.go:41-49 | the row, if there is one, has the new columns, type defaulting to http; its uid, source, pause flag and creation time, and everything else in the database, stay |
| Items.DeleteEndpoint | internal/db/endpoint.go:51-54 | the row is gone and its id stays used up; exactly the links that start at it and the checks that belong to it go along, every other row, link and check stays, and the invariant holds |
| Items.TogglePause | internal/db/endpoint.go:56-64 | negates the stored flag and returns the new one; every other column, row and table stays; without a row nothing changes |
| Items.CreateNotifier | internal/db/notifier.go:9-19 | inserts an unmanaged row under a fresh id |
| Items.UpdateNotifier | internal/db/notifier.go:31-36 | the row, if there is one, has the new columns; its uid, source and creation time, and everything else in the database, stay |
| Items.DeleteNotifier | internal/db/notifier.go:38-41 | the row is gone and its id stays used up; exactly the links to it go along, everything else stays, and the invariant holds |
| Items.SetEndpointNotifiers | internal/db/notifier.go:84-102 | replaces all links of the endpoint by exactly those listed, and changes no other link or table; or changes nothing, exactly when the list repeats or an id does not exist |
| Items.EjectConfigItems | internal/db/config_state.go:26-42 | all or nothing: every managed row becomes a UI row without uid and keeps its other columns, and nothing else changes |
| Items.CountConfigItems | internal/db/config_state.go:9-21 | counts the managed endpoints and notifiers |
| Items.EjectionReleases | internal/db/config_state.go:23-25 | ejection keeps ids, columns, links and checks, keeps the invariant, and leaves nothing managed |
| Fleet.StepKeepsInv | internal/monitor/manager.go:121-144 | every step of spawn, both halves of kill, and stop keeps: each uncancelled worker is registered for its endpoint or held by exactly one pending kill, never both |
| Fleet.RunKeepsInv | internal/monitor/manager.go:121-144 | the registry invariant holds in every reachable state of every interleaving |
| Fleet.LiveWorkersAreCounted | internal/monitor/manager.go:135-144 | in every reachable state the live workers of an endpoint number exactly its pending kills, plus one if it is registered, until a stop, after which there are none |
| Fleet.OneWorkerIff | internal/monitor/manager.go:125-144 | an endpoint has at most one live worker exactly when the manager has stopped or its pending kills, plus one if it is registered, are at most one |
| Fleet.TwoWorkersMayOverlap | internal/monitor/manager.go:139-142 | a run in which that condition fails and two workers of one endpoint are live |
| Fleet.TickerPeriodIsRight | internal/monitor/manager.go:162 | the ticker period is positive and the configured interval exactly when the interval is positive and at most 9223372036 seconds |
| Fleet.TickerPeriodWraps | internal/monitor/manager.go:162 | one second more wraps to a negative period |
| Alerts.Book.Settle | internal/monitor/manager.go:201-231 | one settled check extends the endpoint's trace, keeps the stored state its summary, and raises the alert the trace calls for |
| Alerts.Book.Forget | internal/monitor/manager.go:110-112 | forgets the endpoint's state and trace and no other |
| Alerts.CounterIsTrailingRun | internal/monitor/manager.go:204-215 | the stored counter is the length of the failure run the trace ends with, across pauses, resumes and edits |
| Alerts.CountedAreLong | internal/monitor/manager.go:218-223 | the counted runs are all runs of length at least the threshold, except a first one at threshold 1 |
| Alerts.DownAlertsCountRuns | internal/monitor/manager.go:218-231 | with a fixed positive threshold the Down alerts number exactly the counted failure runs |
| Alerts.FirstFailureIsSilent | internal/monitor/manager.go:218-223 | at threshold 1 an endpoint that is down from the start never raises an alert although it has a long run |
| Alerts.NoDownWithoutThreshold | internal/monitor/manager.go:228 | with a threshold of zero or less no Down alert is raised |
| Alerts.RecoveriesCountEndings | internal/monitor/manager.go:225-227 | Recovery alerts number exactly the failure runs that ended, whatever the thresholds |
| Alerts.DownsAlternate | internal/monitor/manager.go:225-231 | with a fixed threshold two Down alerts always have a Recovery between them |
| Alerts.DownsPerFailureRun | internal/monitor/manager.go:101-118 | within one stretch of failures the Down alerts number at most one plus the changes of threshold |
| Monitoring.Manager.Spawn | internal/monitor/manager.go:121-133 | registers a worker with the given columns unless one is registered; other endpoints keep theirs |
| Monitoring.Manager.Kill | internal/monitor/manager.go:135-144 | unregisters and cancels the endpoint's worker; other endpoints keep theirs |
| Monitoring.Manager.Add | internal/monitor/manager.go:89-99 | starts monitoring a stored unpaused endpoint with its stored columns; does nothing for a paused one, reports a missing one |
| Monitoring.Manager.Edit | internal/monitor/manager.go:102-105 | afterwards the worker runs with the stored columns, or is gone when the endpoint is paused or missing; the alert state stays |
| Monitoring.Manager.Pause | internal/monitor/manager.go:117-119 | the endpoint is not registered any more; the alert state stays |
| Monitoring.Manager.Delete | internal/monitor/manager.go:108-114 | the endpoint is not registered any more, and its alert state and cached stats are forgotten; other endpoints keep theirs |
| Monitoring.Manager.Start | internal/monitor/manager.go:58-79 | hydrates the cache of the endpoints stored unpaused, then registers exactly those, each with its stored columns; on a failing query no worker starts |
| Monitoring.Manager.Stop | internal/monitor/manager.go:82-86 | no worker is live |
| Pipeline.StepConserves | internal/monitor/manager.go:178-199 | every step keeps each produced check in exactly one place |
| Pipeline.SendIs | internal/monitor/manager.go:195-199 | a send drops its check exactly when 4096 others are waiting, and otherwise puts it at the end of the channel |
| Pipeline.StepKeepsOrder | internal/monitor/manager.go:250-262 | every step keeps the channel a bounded queue and recording in the order of taking |
| Pipeline.StepKeepsRows | internal/monitor/manager.go:250-262 | every step keeps the stored rows those of the start or of recorded checks, ids in order of recording, none dangling |
| Pipeline.NothingIsLost | internal/monitor/manager.go:195-199 | in every run each produced check is exactly one of unsent, queued, in the writer's hand, recorded, dropped or failed; the queue never exceeds 4096; what is recorded is a subsequence of what was sent |
| Pipeline.QueueIsLostAtShutdown | internal/monitor/manager.go:258-259 | once the writer quits, nothing is taken, recorded or given up any more, and the channel only grows |
| Pipeline.RowsFollowRecording | internal/monitor/manager.go:253-254 | rows with increasing ids come from checks recorded in that order |
| Window.StepKeepsAgreement | internal/monitor/state.go:105-137 | a step in which nothing goes wrong for the endpoint keeps its cached window equal to the last fifty of rows, writer's check, queue and worker's check; a cleanup batch may remove its rows as long as those older than the cutoff lie before the last fifty |
| Window.CompleteCleanupKeepsIff | internal/db/check.go:23-56 | a cleanup that runs to its end keeps the agreement exactly when no row of the endpoint is older than the cutoff, or its younger rows and the checks on their way number at least fifty |
| Window.CleanupMayBreakAgreement | internal/db/check.go:28-31 | an endpoint whose only check is older than the cutoff: the cleanup empties its rows but not its cached window |
| Window.AgreementLasts | internal/monitor/state.go:105-137 | agreement lasts through any such interleaving |
| Window.StartAgrees | internal/monitor/state.go:57-86 | an endpoint with nothing on its way whose cache is the last fifty rows starts in agreement |
| Window.NewestAreLast | internal/db/check.go:58-61 | the newest-first answer lists chronological rows from the end |
| Window.HydratedWindow | internal/monitor/state.go:62-72 | hydration yields the last fifty rows, oldest first |
| Window.RehydrateChangesNothing | internal/monitor/state.go:57-86 | once the pipeline has drained, hydrating again gives the window already cached |
| Crew.CrewRunKeepsInv | internal/monitor/manager.go:146-176 | in every run of workers, requests and pipeline, exactly the checks in flight have a worker, one of their endpoint, and no worker has two |
| Crew.AloneMeansOne | internal/monitor/manager.go:165-175 | an endpoint with at most one live worker, and no other one still in a check, has at most one check in flight |
| Crew.NoOverlap | internal/monitor/manager.go:165-175 | so in every such state of every run its checks do not overlap between cache and channel |
| Crew.CrewKeepsAgreement | internal/monitor/state.go:105-137 | as long as one worker at a time looks after the endpoint and nothing else goes wrong for it, its cached window agrees with the database in every state, whatever other workers and requests do |
| Checks.InsertCheck | internal/db/check.go:12-21 | appends one row under a fresh id and reports that id, or fails exactly when the endpoint is gone |
| Checks.RecordCheck | internal/db/check.go:12-21 | stores the check as a new row and reports the row's id, or changes nothing |
| Checks.AppendedTwice | internal/db/check.go:96-119 | appending two batches is appending their concatenation |
| Checks.BindChunk | internal/db/check.go:104-113 | the array binds parameters 5j to 5j+4 to check j, every check once and in order |
| Checks.RecordChecksBatch | internal/db/check.go:89-121 | stores all checks once and in order, or none; with a working database it succeeds exactly when every endpoint exists |
| Checks.GetChecksByEndpoint | internal/db/check.go:58-77 | delivers the answer to the recent-checks query |
| Checks.QueryAnswers | internal/db/check.go:59-62 | the answer lists the endpoint's rows by time and id descending, at most the limit, and every row left out is older |
| Checks.PickOld | internal/db/check.go:28-31 | picks at most a thousand rows older than the cutoff, and none only when none is left |
| Checks.CleanupOldChecks | internal/db/check.go:23-56 | terminates with the cutoff moving with the clock; with a working database it finishes, and then exactly the rows not older than the last cutoff remain, in order; cut short it has removed only older ones |
| Checks.CleanedIsDeletion | internal/db/check.go:28-31 | a cleanup, finished or not, amounts to deleting a set of row ids, all older than the cutoff |
| State.EndpointStats.Touch | internal/monitor/state.go:117-136 | the stats describe the new check and the window slides by it |
| State.TouchedIs | internal/monitor/state.go:117-136 | a check replaces the last-check fields, slides the window of fifty by one, and leaves the averages alone |
| State.TouchedCoherent | internal/monitor/state.go:117-136 | the last-check fields always describe the newest window entry, and the window stays within fifty |
| State.EndpointStats.Clone | internal/monitor/state.go:178-216 | a new object with the same contents |
| State.StateManager.UpdateOnCheck | internal/monitor/state.go:105-137 | changes the stats of this endpoint only, creating them if missing, and keeps its averages; no object serves two endpoints |
| State.StateManager.GetStats | internal/monitor/state.go:218-227 | a fresh copy, or nothing when the endpoint is unknown |
| State.StateManager.GetDashboardStats | internal/monitor/state.go:229-238 | fresh, pairwise distinct copies of all stats |
| State.StateManager.Delete | internal/monitor/state.go:240-244 | forgets this endpoint only |
| State.StateManager.RefreshAverages | internal/monitor/state.go:153-176 | sets the 24 hour average exactly where one is available and touches nothing else |
| State.StateManager.Hydrate | internal/monitor/state.go:37-103 | every endpoint stored unpaused gets the stats of its newest rows, or blank ones where they cannot be read; other entries stay; if the endpoints cannot be listed nothing changes |
| State.HydratedIs | internal/monitor/state.go:62-91 | hydrated stats hold the newest rows oldest first, the newest one in the last-check fields, and the average if one is delivered |
| State.HydratedCoherent | internal/monitor/state.go:62-86 | hydrated last-check fields describe the newest window entry |
| State.HydrationRestoresCache | internal/monitor/state.go:57-86 | hydrating a drained endpoint restores its cached window |
| Engine.Engine.constructor | internal/monitor/manager.go:58-79 | starts with an empty channel, no alert state, and a cache hydrated for exactly the endpoints stored unpaused |
| Engine.StartAgreesIff | internal/monitor/state.go:40-44 | right after startup the cached window of an endpoint agrees with its rows exactly when it is unpaused and its rows could be read, or it has none |
| Engine.Engine.Deliver | internal/monitor/manager.go:193-199 | the cache slides by the check, for its endpoint only, and the check joins the channel unless that holds 4096 already |
| Engine.Engine.Settle | internal/monitor/manager.go:178-232 | one whole check: cache, channel, trace and the alert the trace calls for |
| Engine.Engine.WriteNext | internal/monitor/manager.go:250-257 | takes the oldest check off the channel and stores it as one new row, or loses it; with a working database it is stored exactly when its endpoint exists |
| Engine.Engine.Forget | internal/monitor/manager.go:108-114 | forgets the alert state and the cached stats of the endpoint and no other |
| Engine.Engine.Sweep | internal/monitor/manager.go:241 | removes only checks older than the last cutoff, and with a working database all of them; cache and channel stay |
| Engine.CheckRuns | internal/monitor/manager.go:193-199 | a whole check is four steps of the pipeline machine, and what they amount to |
| Engine.CallsAreRuns | internal/monitor/manager.go:178-262 | any sequence of checks, writer rounds, cache removals, cleanups and API requests from startup on is a run of the pipeline machine that mirrors cache, channel and rows |
| Engine.CompletedChecksAreSomewhere | internal/monitor/manager.go:195-199 | hence after any sequence of calls every completed check is exactly one of queued, recorded, dropped or failed |
| Server.Server.ValidateEndpoint | internal/server/handlers.go:32-66 | accepts exactly bodies with name, url, a known type, a url fit for it and an interval of at least ten, and fills in the type |
| Server.Server.PostEndpoint | internal/server/handlers.go:139-166 | 400 for an unacceptable body, without effect on store or workers; otherwise 201, an unmanaged row under a fresh id with the listed links unless the list breaks a constraint, and a worker unless paused: store and manager stay in step |
| Server.Server.PutEndpoint | internal/server/handlers.go:182-224 | 404, 403 for a managed endpoint, 400, in this order and without effect on store or workers; otherwise new columns, new links unless the list breaks a constraint, and a worker restarted with the new columns: store and manager stay in step |
| Server.Server.RemoveEndpointById | internal/server/handlers.go:226-249 | 404, or 403 for a managed endpoint, without effect on store, workers, alert state or cache; otherwise the row goes with its links and checks, its worker, its alert state and its cached stats, and no other entry of those |
| Server.Server.TogglePauseById | internal/server/handlers.go:251-282 | 404, or 403 for a managed endpoint, without effect on store or workers; otherwise the flag is negated and the worker stopped or started accordingly |
| Server.Server.PostNotifier | internal/server/handlers.go:347-370 | 400 when a field is empty or no provider can be built; otherwise 201 and an unmanaged row under a fresh id |
| Server.Server.PutNotifier | internal/server/handlers.go:386-425 | 404, 403 for a managed notifier, 400, in this order and without effect; otherwise new columns, with uid and source as before |
| Server.Server.RemoveNotifierById | internal/server/handlers.go:427-449 | 404, or 403 for a managed notifier, without effect; otherwise the row goes with its links |
| Server.RespondKeepsInv | internal/server/handlers.go:139-449 | every request keeps the store invariant |
| Server.ApiSparesManaged | internal/server/handlers.go:194-197 | no request touches managed rows, links of managed endpoints or their checks, or makes a row managed |
| Server.RequestsAreLocal | internal/server/handlers.go:139-449 | a request changes no other endpoint or notifier row, no checks of another endpoint, and no link between two others |
| Server.EndpointIsStored | internal/server/handlers.go:150-223 | a successful create or update leaves an unmanaged row with the submitted columns, pause flag and creation time as they should be, and exactly the submitted links when the list is admissible, else the old ones; notifiers and checks stay |
| Server.PauseIsStored | internal/server/handlers.go:268-281 | a successful pause or resume negates the flag of that endpoint and changes nothing else in the database |
| Server.NotifierIsStored | internal/server/handlers.go:365-424 | a successful create or update of a notifier leaves an unmanaged row with the submitted name, type and JSON, and changes nothing but that table |
| Server.RemovalIsDone | internal/server/handlers.go:243-248 | a successful delete removes the row, its links and its checks, and nothing else |
| Server.AnswersAre | internal/server/handlers.go:139-449 | 404 exactly when the row is missing, then 403 exactly when it is managed, then 400 exactly when the body is unfit, none of them with an effect; otherwise 201, 200 or 204 by kind of request |
| Server.AcceptableBodies | internal/server/handlers.go:32-66 | the accepted bodies in plain terms: types http and tcp, interval at least 10; notifier types telegram, pushover and redis in any letter case |
| History.LifeKeepsInv | internal/db/db.go:81-116 | every state of every run of syncs, ejections, requests, check traffic and cleanups satisfies the store invariant |
| History.LifeAges | internal/db/db.go:83 | counters never go back, and every row is an old one or has an id never used before |
| History.IdsAreNeverReused | internal/db/db.go:83-105 | the id of an endpoint, a notifier or a check that is gone never comes back |
| History.CheckRowsNeverChange | internal/db/check.go:12-21 | as long as the id of a check is in use, its row is the same |
| History.ProvenanceIsOneWay | internal/db/config_state.go:33-37 | a UI row never becomes managed, and a managed row has had its uid all along |
| History.EjectedRowsAreImmune | internal/db/config_state.go:23-42 | after an ejection no number of syncs changes the ejected rows or the links between them |
| History.ApiRunsSpareManaged | internal/server/handlers.go:182-449 | any sequence of requests leaves managed rows, their links and checks as they were |
| History.NoDriftWithoutSync | internal/db/sync.go:12-145 | after a sync and any number of requests, recordings and cleanups the store still shows exactly the configuration |
| History.ResyncChangesNothing | internal/db/sync.go:12-145 | at any such time another sync of it is the identity on rows, links and checks |
| History.LifeKeepsHealth | internal/config/config.go:59-118 | when configurations are validated before they are synced, every stored row could come from a valid file, but for thresholds and notifier types, whatever the API was asked |
| History.LifeKeepsKinds | internal/server/handlers.go:354-365 | if the API was moreover only given notifier types in lower case, so are all stored ones |
| History.EveryExportIsValidIff | internal/config/config.go:75-77 | whatever happened since the store was empty, a clash-free export passes validation exactly when every stored notifier type is one validation supports |
| History.CapitalTypeSpoilsExport | internal/notifier/notifier.go:33-36 | one accepted request, a notifier of type "Telegram", and the export of the store does not pass validation |
| History.EveryStoreExportsAValidFile | internal/db/export.go:13-109 | since the store was empty, if the API was only given notifier types in lower case, the export passes validation, clashes or not |
| History.EveryWorkerTicks | internal/monitor/manager.go:162 | when configurations are validated before they are synced, every registered worker of a fleet in step with a store that began empty has a positive ticker period equal to the stored interval, up to the int64 bound |
| Redis.DecodeUndoesEncode | internal/notifier/redis.go:94-98 | a decoder gets back any command and leaves exactly what follows it, even when arguments contain line ends |
| Redis.EncodingIsPrefixFree | internal/notifier/redis.go:94-98 | no command is the beginning of another one |
| Redis.ReceivedUndoesEncodeAll | internal/notifier/redis.go:94-102 | a server that receives a stream of commands sees exactly these commands |
| Redis.BrokenStreamIsAPrefix | internal/notifier/redis.go:100-102 | wherever the stream breaks off, the server has seen the first few commands and nothing else |
| Redis.KeysAreSeparate | internal/notifier/redis.go:69-84 | different endpoints and different fields never share a key |
| Redis.CommandsAre | internal/notifier/redis.go:57-87 | a notification is AUTH exactly with a password, SELECT of the configured number exactly when it is not 0, and the four updates, in this order |
| Redis.NotificationExample | internal/notifier/redis.go:57-87 | the six commands of one notification, spelled out |
| Redis.EncodingExample | internal/notifier/redis.go:94-98 | the bytes of one command, spelled out |
| Redis.ItoaReads | internal/notifier/redis.go:64 | a printed number reads back as the same number, with a minus sign exactly when negative |
| Redis.AtoiReads | internal/notifier/redis.go:125 | digits, with or without a sign, are read as their number if that fits 64 bits |
| Redis.AtoiRefuses | internal/notifier/redis.go:125-128 | any other text is refused |
| Redis.BulkReplies | internal/notifier/redis.go:123-136 | a bulk reply is refused when its length is not a number, accepted without payload when it is negative, and otherwise announces its payload |
| Redis.OtherReplies | internal/notifier/redis.go:120-138 | errors, unknown replies and empty lines are refused |
| Redis.Connection.SendCommand | internal/notifier/redis.go:93-141 | writes the encoding of the command and judges the first line of the reply; a payload is taken by one read that may be short |
| Redis.Connection.Exchange | internal/notifier/redis.go:57-87 | one command of a notification consumes its own reply |
| Redis.Connection.Send | internal/notifier/redis.go:43-90 | the stream is a beginning of the commands' encoding, all of it on success; AUTH comes first exactly with a password, then SELECT of the configured database exactly when that is not 0; with one line reply per command, each command sent has consumed exactly its own reply and the first bad one ends the notification |

## Left out

- The web UI, embedded files, routing, authentication, JSON request decoding, read-only handlers and command line flags.
- HTTP and TCP probing, and the Telegram and Pushover senders; a check result is an arbitrary value and an alert a returned event.  The fan-out of an alert to the linked notifiers and its wait group.
- YAML parsing, environment substitution, regular expression internals and JSON text.  A notifier block is an abstract value.  Marshalling and unmarshalling are not assumed to be inverse, since integers may come back as floats and keys in another order; where a round trip needs the stored text to be reproduced, its statement says so.
- SQLite internals: journal mode, timeouts, per-connection settings, the limit on bound parameters, comparison of date strings, and the rounded floating-point average, which is a given value.  Foreign keys are taken to be on, as internal/db/db.go:41 intends, transactions to be atomic.
- The chunk size of a batch insert, which the stored rows do not show; `joinStrings` and the placeholder text of the pruning statements: the statement is modelled by what it selects.
- The migration ladder of internal/db/db.go and a crash in the middle of it: the tables are modelled at schema version 4.
- Wall clock, jitter and ticker timing; nothing is claimed about how Go's `select` is scheduled, nor that anything eventually happens.
- Concurrent API requests against the store, and I/O failures inside API handlers.  Worker steps and manager calls do interleave, in `Fleet` and `Pipeline`.
- Alerts are decided from the state read under the lock; the order in which two checks of one endpoint send them after the lock is released is not modelled.
- The endless loops of the worker, writer, aggregator and cleanup goroutines: each round is a method or a step of one of the two machines.
- Negative row ids and counters beyond the int64 range.  Pointers to integers in the stats are modelled by their values.
- Text printed by the dry run beyond the verdict, the uid and one column.
- Checks.CleanupOldChecks: does not model the clock being set back during a run, nor other writers between two batches; `Pipeline` interleaves single batches with everything else.
- Engine.Engine.Settle: does not model two checks at once; `Pipeline` and `Crew` interleave any number of them.
- Engine.Engine.constructor: does not model a startup whose endpoint query fails, which makes the program give up; `Monitoring.Manager.Start` covers it.
- Monitoring.Manager.Delete: does not claim that alert state and cache stay forgotten; a check in flight may record both again, as the source allows.
- Redis.Connection.SendCommand: does not model running out of memory for an announced payload length.
- Redis.Connection.Send: does not model dialling, deadlines and the error texts.
- ExportLaws.ExportUndoesSync: does not give back the order within notifier lists, because the store keeps links as a set.
- Diff.DryRunPredictsSync: does not cover configurations with references to undefined notifiers, because validation rejects them before the dry run.
