# Verified model of the test-reporting backend

A model, in Dafny, of the parts of the backend whose correctness is hardest to see by reading: the audit hash chain
with its verifier and its exporter, the live run pipeline, the Gherkin importer, the report normalizers with the run
merge, and three smaller algorithms (ticket creation, failure clustering, the coverage display). Each module models one
component; loops and objects that the program updates in place are methods and classes, each proved equal to a
specification function, and what the program promises is proved about those functions for every input, every run or
every reachable state.

| component | modules |
|---|---|
| Canonical JSON, the audit chain, its verifier, its writers, its exporter | `Json`, `AuditChain`, `AuditTamper`, `AuditTable`, `AuditVerify`, `AuditAppend`, `AuditExport`, `AuditPipeline` |
| Gherkin import | `GherkinRow`, `GherkinLines`, `GherkinParser`, `GherkinReader`, `GherkinSource`, `GherkinRoundTrip`, `GherkinFeature`, `GherkinExamples`, `GherkinTexts`, `GherkinStray`, `GherkinHeads`, `CucumberRefs` |
| Live runs: tables, statements in any interleaving, events, replay, rows | `LiveTables`, `LiveRaces`, `LiveCalm`, `LiveRaceFound`, `LiveEvents`, `LiveTells`, `LiveSummary`, `LiveStore`, `LiveReplay`, `LiveRows` |
| Live runs: per-run queues and aborts, the event bus, the run's status | `LiveQueue`, `LiveAborts`, `LiveForget`, `LiveRequests`, `LiveBus`, `LiveActive`, `LiveEventBus`, `RunStatus` |
| Report normalizers and run merge | `Normalized`, `Playwright`, `JUnit`, `Mochawesome`, `WebdriverIO`, `Jest`, `RunSpecs`, `RunMerge`, `ReportFiles`, `UploadRows` |
| Ticket creation, clustering, coverage display | `Tickets`, `TicketEnds`, `Clustering`, `Coverage` |
| Text shared by all | `Text` |

`dafny verify dfyconfig.toml` checks the whole project.

## How the model is built

- SHA-256 is idealised as a function without collisions whose values are never empty, never the genesis value and one
  line long (`AuditChain.CollisionFree`); `AuditTamper.CollisionFreeExists` shows that such a function exists.
- Concurrency is modelled by steps. An append transaction begins (fixing `created_at`), takes the lock, reads the head,
  inserts (taking the next global id), sets the hash, and commits or rolls back; any number of writers and organisations
  interleave. Live handlers are split into their SQL statements, each statement atomic, and any number of handlers
  interleave. Export ticks, ticket callers and promise chains are treated the same way.
- Failures are steps too: a delivery, a cursor write, a remote create or a commit may fail wherever it can in the code.
- A JSON object's members are an ordered list, as JavaScript keeps them, so that key order is something to be lost.

## Where the code departs from what it, or its documentation, promises

Each comes with its exact condition; those on Examples cells are exact for rows in which at most one cell holds an angle
bracket, and the one for every text for distinct headers.

- There is one spec row per run and file (`backend/migrations/030_tests_pending_unique.sql:57`), and an upload writes over
  it. Shards, or suites of one report, that name the same file leave the last one's counters; specs that live events left
  stay beside them. Only a run that its first upload made, with no live start before, keeps the counters of that whole
  report, until a second upload: `RunMerge.ShardsAddUpIff`, `RunMerge.RecalculationReproducesIff`; per report format,
  `ReportFiles`.
- Titles are said not to be unique within a spec (`backend/src/routes/uploads.ts:239-240`), but the table holds one pending
  row per title: a report with two pending tests of one title cannot be uploaded, nor, over some live rows, one with a
  single one: `UploadRows.FirstUploadRefusedIff`, `UploadRows.SpecRows.Reconcile`.
- A page size of 0 makes the chain verifier report any log as intact and empty: `AuditVerify.PagedIsSinglePassIff`. No
  caller in the backend passes one (`backend/src/routes/audit.ts:166` takes the default).
- `audit_log.user_id` is hashed, and is set to NULL when a user is deleted; that breaks the chain of an untouched log
  exactly when a chained row names the user: `AuditTamper.UserDeletionBreaksChain`.
- `updateLiveSpecStats` is documented to treat test rows, where there are any, as the source of truth
  (`backend/src/routes/live.ts:489-503`). A screenshot upload, which is on no queue, can insert the first row of a spec
  between its row count and its summary write; the summary then overwrites counters that had become exact.
  `LiveRaceFound.SummaryRace` gives the interleaving, `LiveRaceFound.RaceExactIff` the condition on the spec and the
  summary, and `LiveCalm.QueuedRunsExact` the runs that are never affected: no spec without rows has an upload and a
  spec.finished under way together.
- Uploading one file twice for a finished test makes a second, pending row of it: `LiveRows.ScreenshotDuplicatesIff`.
- The clean-up five seconds after a run ends does not look whether it was started again; a run that was is left active,
  unregistered and out of every sweep's sight: `LiveBus.RestartedRunIsLost`, `LiveBus.InvKeptIff`.
- The emitter's half-hour timer is documented as an inactivity timer, but events do not reset it:
  `LiveBus.EventSetsTimerIff`, `LiveBus.BusyRunDroppedIff`.
- `forgetLiveRun`, called once a run's row is deleted, drops a chain whose work may still be running. A request that
  checked its run before the delete and queues its work afterwards overlaps with it; a later one is refused:
  `LiveForget.ForgottenInOrderIff`.
- A doc string before the first step of a file never closes, and doc strings and table rows before the first step of an
  item go to the last step of an earlier one, or nowhere: `GherkinStray.RowAttachesIff`, `GherkinStray.DocAttachesIff`.
- An Examples cell that holds a later placeholder, or ends in the beginning of one, is substituted again:
  `GherkinExamples.FillsGoodTextsIff`, for texts whose own words bring in no part of a placeholder. In texts that do, such
  as a placeholder nested in another, a cell is also substituted again together with what stands around it:
  `GherkinTexts.FillsAllTextsIff`, for every text.
- A Background header after an Examples block does not end the block: `GherkinStray.BackgroundRowExpands`.
- Failures whose messages hold no words never cluster, not even identical ones: `Clustering.NearItselfIff`.
- The environment of a merged run can depend on the order in which shards arrive: `RunMerge.EnvironmentIgnoresOrderIff`.

## Model

| member | source | states |
|---|---|---|
| `Json.CanonicalIffSame` | `backend/src/audit-chain.ts:50-62` | canonical text is canonical and injective: two JSON values have one text exactly when they are equal up to the order of object keys at every depth (undefined counting as null) |
| `Json.ReadBack` | `backend/src/audit-chain.ts:55-62` | a reader (strings per section 7 of RFC 8259) recovers every value from its canonical text, whatever delimiter follows |
| `Json.ReadStringBack` | `backend/src/audit-chain.ts:57-61` | a quoted, escaped string is read back whole, whatever it contains and whatever follows |
| `Json.EscapedAs` | `backend/src/audit-chain.ts:57-61` | which characters of a string are escaped, and how |
| `Json.RankIsUnits` | `backend/src/audit-chain.ts:60` | keys are sorted by their UTF-16 code units |
| `AuditChain.SameContentMeans` | `backend/src/audit-chain.ts:75-85` | two rows hash the same content exactly when every column agrees, `detail` up to key order and `created_at` up to the millisecond |
| `AuditChain.HashedTextIs` | `backend/src/audit-chain.ts:75-87` | what is hashed, to the letter: the predecessor's hash, a line break, and the JSON array of the eight values in this order, the id, the time and the canonical `detail` as strings |
| `AuditChain.HashedTextDecides` | `backend/src/audit-chain.ts:64-87` | different content has different hashed text although `detail` is JSON encoded inside JSON |
| `AuditChain.EntryHashBinds` | `backend/src/audit-chain.ts:75-87` | with a collision-free digest the entry hash determines both the predecessor's hash and the row's content |
| `AuditChain.VerdictSound` | `backend/src/audit-chain.ts:98-191` | the verdict is ok exactly when, after a leading run of unhashed rows, every row is hashed, links to its predecessor and matches its content; it then counts both parts |
| `AuditChain.VerdictNamesFirstBroken` | `backend/src/audit-chain.ts:151-202` | a failing verdict names the first row where the log stops being intact, with the counts up to it and the first of the three checks that fails there |
| `AuditChain.TruncationUndetected` | `backend/src/audit-chain.ts:13-16` | cutting any tail of an intact log leaves an intact log |
| `AuditTamper.HashFixesPast` | `backend/src/audit-chain.ts:13-16` | equal entry hashes at two places of intact logs mean the same rows before them, back to the start of both chains |
| `AuditTamper.HeadFixesRecord` | `backend/src/audit-chain.ts:13-16` | two verifying logs with the same last entry hash hold the same chained record, row for row on every hashed field |
| `AuditTamper.EditDetected` | `backend/src/audit-chain.ts:9-11` | editing a chained row in place is detected exactly when it changes something the hash covers |
| `AuditTamper.DeletionDetected` | `backend/src/audit-chain.ts:9-11` | deleting a chained row other than the last is detected |
| `AuditTamper.InsertionDetected` | `backend/src/audit-chain.ts:9-11` | inserting a hashed row before a chained row is detected, whatever hashes it carries |
| `AuditTamper.ReorderUnseenIff` | `backend/src/audit-chain.ts:9-16` | rearranging the rows in any way goes unseen if and only if the chained rows stay behind the others and in their order |
| `AuditTamper.ChainFromRows` | `backend/src/audit-chain.ts:9-16` | a verifying log all of whose chained rows are taken from another verifying log holds the first of that log's chained rows, in their order |
| `AuditTamper.ClearingDetected` | `backend/src/audit-chain.ts:101-104` | clearing the hash of a chained row goes undetected exactly when it is the only chained row |
| `AuditTamper.FullClearingUndetected` | `backend/src/audit-chain.ts:101-104` | a log with every hash cleared verifies, as legacy rows only |
| `AuditTamper.LegacyEditUndetected` | `backend/src/audit-chain.ts:101-104` | changing a legacy row, if it stays unhashed, goes unseen |
| `AuditTamper.LegacyReplacedUnseenIff` | `backend/src/audit-chain.ts:101-104` | putting any rows in place of the legacy ones goes unseen if and only if none of them is hashed |
| `AuditTamper.DeletionUnseenIff` | `backend/src/audit-chain.ts:9-16` | deleting a row goes unseen if and only if it is a legacy row or the last row |
| `AuditTamper.InsertionUnseenIff` | `backend/src/audit-chain.ts:9-16` | inserting a row anywhere goes unseen if and only if it is an unhashed row no later than the first hashed one, or a row at the very end that links to the last and whose hash fits |
| `AuditTamper.UserDeletionBreaksChain` | `backend/migrations/008_admin_features.sql:5` | nulling a deleted user's id keeps a verifying log verifying exactly when no chained row names that user |
| `AuditTamper.CollisionFreeExists` | `backend/src/audit-chain.ts:86` | the idealisation of the digest can be met |
| `AuditTable.OrgRowsById` | `backend/src/audit-chain.ts:121-133` | what a reader gets is in id order, in whatever order the table is stored |
| `AuditVerify.WalkPage` | `backend/src/audit-chain.ts:151-184` | walking one page from where the pages before it left off is walking the rows of all of them in one pass |
| `AuditVerify.VerifyAuditChain` | `backend/src/audit-chain.ts:106-191` | the paged walk, over a table that may change between pages, returns exactly the single-pass verdict of the rows it read |
| `AuditVerify.PagesSeeAPrefix` | `backend/src/audit-chain.ts:118-190` | for every page size above 0, appends landing between pages never tear what is read: it is the log as of some moment at or after the first read |
| `AuditVerify.PagedEqualsSinglePass` | `backend/src/audit-chain.ts:118-190` | on an unchanging log every page size above 0 gives the single-pass verdict, counts and first broken id |
| `AuditVerify.AppendsNeverBreakVerdict` | `backend/src/audit-chain.ts:118-190` | if the log verifies at the last read, what the pages saw verifies |
| `AuditVerify.ZeroPageSeesNothing` | `backend/src/audit-chain.ts:110-135` | with page size 0 every log, however damaged, is reported intact and empty |
| `AuditVerify.PagedIsSinglePassIff` | `backend/src/audit-chain.ts:110-135` | the paged verdict of an unchanging log is its single-pass verdict if and only if the page size is above 0 or the log is empty |
| `AuditAppend.StepKeepsInv` | `backend/src/audit.ts:27-87` | every step of every append transaction keeps each organisation's committed rows in increasing id order and in one chain, and each open transaction's view of the head current |
| `AuditAppend.EveryReachableLogVerifies` | `backend/src/audit.ts:19-88` | however writers of all organisations interleave, roll back and invert `created_at`, at every reachable state each organisation's log is in commit order by id and verifies |
| `AuditAppend.LogsOnlyGrow` | `backend/src/audit.ts:27-47` | a log read later extends what was read earlier |
| `AuditAppend.VerificationDuringAppendsPasses` | `backend/src/audit-chain.ts:18-24` | a verification whose pages are read at any moments of any run of appends, with any page size, reports the log intact |
| `AuditAppend.AuditDb.AppendAuditEntry` | `backend/src/audit.ts:19-88` | one append, waiting for the lock while other transactions run any statements that free it, and failing at any statement or none: the table of that moment gains exactly one row or is unchanged, the lock is released, the id sequence never goes back, and the call is a run of the step protocol; the row holds each argument in the column of its name, the next id of the sequence, the hash of the last row as its predecessor, and the hash of both |
| `AuditAppend.CommittedAsBegun` | `backend/src/audit.ts:57-80` | in every reachable state each row committed since the start was committed by a transaction that was open from its beginning on, and holds, column by column, the entry that transaction began with |
| `AuditExport.ExportGapFree` | `backend/src/audit-export.ts:219-285` | from a cursor set when the destination was created (backend/src/routes/audit.ts:229-236), after any ticks, delivery failures, lost cursor writes, crashes and appends: every row past the start that the cursor has passed was delivered, and the deliveries without repeats are a prefix, in id order, of the rows past the start |
| `AuditExport.CursorNeverMovesBack` | `backend/src/audit-export.ts:239-285` | the stored cursor never moves back |
| `AuditExport.SingleFlight` | `backend/src/audit-export.ts:305-315` | at most one instance is inside a tick, and it holds the lock |
| `AuditExport.ExportNeverStuck` | `backend/src/audit-export.ts:305-315` | no lock is left behind by a failure or a crash: in every reachable state any instance can begin a tick at the stored cursor, at once when nobody is inside one, and otherwise as soon as the one inside has ended or died, and not before |
| `AuditExport.DeliverRun` | `backend/src/audit-export.ts:276-281` | re-sending a run of rows that starts inside what was sent leaves a longer prefix sent, nothing twice and nothing skipped |
| `AuditExport.AuditExporter.FlushBatch` | `backend/src/audit-export.ts:241-284` | one batch of the loop is a run of the step protocol; a full confirmed batch moves the cursor by exactly the batch size, and a confirmed short one reaches the end of the log |
| `AuditExport.AuditExporter.FlushConfig` | `backend/src/audit-export.ts:239-285` | a tick, from taking the lock on, with rows arriving before any of its reads, is a run of the step protocol; without failures it ships everything owed by its end, up to the per-tick budget |
| `AuditPipeline.WriteIsAppend` | `backend/src/audit.ts:27-87` | a statement of any writer leaves the rows the exporter reads as they are, or adds one above all of them, which is what the exporter takes for granted |
| `AuditPipeline.RefinesExport` | `backend/src/audit-export.ts:219-285` | whatever writers do, the destination goes through a run of the export protocol that makes exactly the ticks' own statements, in their order, and between them receives what writers commit |
| `AuditPipeline.DeliveredInChainOrder` | `backend/src/audit-export.ts:219-285` | writers and flush ticks together, in any interleaving and with any failures: the log verifies, the deliveries without repeats are its first rows past the starting id in chain order, and every row the cursor has passed was delivered |
| `GherkinRow.ParseTableRow` | `backend/src/cucumber-parser.ts:38-68` | the index scan returns the cells of the specified scanner, for every line |
| `GherkinRow.RowRoundTrip` | `backend/src/cucumber-parser.ts:38-68` | writing any trimmed cells between pipes, with pipe, backslash and newline escaped, and scanning the line, however indented and padded, gives the cells back |
| `GherkinRow.VerbatimCell` | `backend/src/cucumber-parser.ts:55` | a cell whose backslashes escape nothing is read as it stands |
| `GherkinRow.RowNormalForm` | `backend/src/cucumber-parser.ts:58-67` | the cells read from any line are trimmed, and writing and reading them again changes nothing |
| `GherkinRow.FirstBarOptional` | `backend/src/cucumber-parser.ts:38-45` | a line that does not start with a bar is read as if it did |
| `GherkinLines.SplitJoined` | `backend/src/cucumber-parser.ts:79` | splitting undoes joining, with either line end |
| `GherkinLines.IndentationIgnored` | `backend/src/cucumber-parser.ts:179-296` | what a line is depends on its trimmed text alone |
| `GherkinLines.HeaderNeedsKeyword` | `backend/src/cucumber-parser.ts:203-290` | a line is read as a header only if it starts, in some mixture of cases, with a keyword of that header |
| `GherkinLines.TagLine` | `backend/src/cucumber-parser.ts:179-200` | a printed line of tags is read as exactly those tags |
| `GherkinLines.ScenarioLine` | `backend/src/cucumber-parser.ts:228-290` | a scenario header, in any mixture of cases, is read as a scenario header with its name and as no other keyword |
| `GherkinLines.StepHead` | `backend/src/cucumber-parser.ts:294-305` | a printed step is read as that keyword and text, for each of the six keywords |
| `GherkinReader.ParseFeature` | `backend/src/cucumber-parser.ts:78-318` | the line loop over mutable state returns what the specified reader returns, for every source text |
| `GherkinReader.FeatureReader.ReadLine` | `backend/src/cucumber-parser.ts:162-311` | one iteration of the loop, in place, is one step of the specification from whatever state |
| `GherkinReader.FeatureReader.ExpandExamplesBlock` | `backend/src/cucumber-parser.ts:108-143` | the loop over Examples rows adds one scenario per row, in row order, and clears the block: its name substituted, its tags the outline's followed by the block's, the outline's line number, the row kept, and each step with its keyword, its text and each table cell substituted in place, and its doc string substituted, or dropped if empty |
| `GherkinParser.RowsExpand` | `backend/src/cucumber-parser.ts:108-143` | the same of the expansion the specified reader uses, field by field |
| `GherkinSource.BlockMeans` | `backend/src/cucumber-parser.ts:108-143` | the same of what a printed block is said to stand for in the round trip: nothing without a header row, otherwise one scenario per row behind it |
| `GherkinFeature.LinesRoundTrip` | `backend/src/cucumber-parser.ts:162-318` | reading the printed lines of any well-formed feature gives what it stands for: scenarios in source order, one per Examples row, outline tags then block tags, steps with their tables and doc strings, and every line number |
| `GherkinFeature.FeatureRoundTrip` | `backend/src/cucumber-parser.ts:78-318` | the same from the text, however indented and padded and with either line end |
| `GherkinRoundTrip.StepsRun` | `backend/src/cucumber-parser.ts:150-177` | a printed list of steps, in a background, scenario or outline, is read as those steps in order, each with its own attachments |
| `GherkinParser.SubstituteExamples` | `backend/src/cucumber-parser.ts:70-76` | the running variable ends as the text with the headers substituted one after another |
| `GherkinExamples.SubstitutionFillsHoles` | `backend/src/cucumber-parser.ts:70-76` | for text whose words, between placeholders, bring in no placeholder of a header and end in the beginning of none: when no cell touches a later header, by holding its placeholder or ending in the beginning of one, substituting one header after another fills every placeholder at once with its own column's cell; words and cells may hold angle brackets otherwise |
| `GherkinExamples.TouchingCellFails` | `backend/src/cucumber-parser.ts:70-76` | a cell that touches a later header, with no angle bracket in the cells behind it: there is such a text that substitution gets wrong |
| `GherkinExamples.FillsGoodTextsIff` | `backend/src/cucumber-parser.ts:70-76` | for rows in which at most one cell holds an angle bracket, substitution fills every such text right if and only if no cell touches a later header |
| `GherkinTexts.SubstitutionFillsText` | `backend/src/cucumber-parser.ts:70-76` | for any text whatever and any row: when no cell clashes with a later header, by touching it, by beginning with an end of its placeholder or by lying inside it, the empty cell included, substitution is reading the text once and filling each placeholder as it stands there; columns whose cell is their own placeholder do not count |
| `GherkinTexts.ClashingCellFails` | `backend/src/cucumber-parser.ts:70-76` | a cell that clashes with a later header, with no angle bracket in the cells behind it: there is a text, such as a placeholder nested in another, that substitution gets wrong |
| `GherkinTexts.NestedFails` | `backend/src/cucumber-parser.ts:70-76` | for distinct headers, so does a cell without angle brackets that clashes with a header whose own cell touches none behind it |
| `GherkinTexts.FillsAllTextsIff` | `backend/src/cucumber-parser.ts:70-76` | for distinct headers and rows in which at most one cell holds an angle bracket, substitution fills every text whatever right if and only if no cell clashes with a later header |
| `GherkinTexts.ClashYetAlwaysRight` | `backend/src/cucumber-parser.ts:70-76` | with several such cells neither touching nor clashing decides: a row that does both and whose every text comes out right |
| `GherkinTexts.PiecesFill` | `backend/src/cucumber-parser.ts:70-76` | filling a text of words and placeholders piece by piece is filling it as it stands |
| `GherkinStray.DocStringCloses` | `backend/src/cucumber-parser.ts:150-177` | a doc string closes at its fence exactly when some step was read before it |
| `GherkinStray.UnattachedDocStringSwallowsRest` | `backend/src/cucumber-parser.ts:150-177` | otherwise the rest of the file, whatever it holds, adds nothing |
| `GherkinStray.FirstStepIsForGood` | `backend/src/cucumber-parser.ts:294-305` | there is no last step exactly until a step line is read, outside a doc string, with a list to add it to |
| `GherkinStray.RowAttachesIff` | `backend/src/cucumber-parser.ts:150-160` | outside doc strings, table rows become the table of the last step of the item being read if and only if no Examples block is open and the last step read is one of its steps |
| `GherkinStray.RowGoesTo` | `backend/src/cucumber-parser.ts:150-160` | outside Examples blocks, the last step read, wherever it stands, gets them as its table and no other step changes: in the background, in an earlier scenario, in the outline being read; without a last step, or when its outline is already expanded, no step changes |
| `GherkinStray.ExampleRow` | `backend/src/cucumber-parser.ts:269-282` | while an Examples block is open a row changes no step: it is the block's header, or one more scenario of its outline, which it fills field by field |
| `GherkinStray.BackgroundRowExpands` | `backend/src/cucumber-parser.ts:205-212` | a Background header leaves an Examples block open: table rows of the background become scenarios of the outline, and the step they stand under has no table |
| `GherkinStray.DocAttachesIff` | `backend/src/cucumber-parser.ts:150-177` | a doc string becomes that of the last step of the item being read under the same condition, in Examples too |
| `GherkinStray.DocGoesTo` | `backend/src/cucumber-parser.ts:150-177` | the last step read, wherever it stands, gets it, with rows that were waiting as its table, and no other step changes; it closes if and only if there is a last step |
| `GherkinHeads.StepGoesTo` | `backend/src/cucumber-parser.ts:294-305` | with nothing waiting to be attached, a step is added with its keyword and text to the end of what is being read and is the last step from then on; where nothing is being read it changes no list |
| `GherkinHeads.ScenarioBegins` | `backend/src/cucumber-parser.ts:246-256` | a scenario starts with its name, the waiting tags, no steps and its own line number, behind the scenarios there were and the expansion of a block that was open; an outline (`GherkinHeads.OutlineBegins`) alike, without being one of them |
| `GherkinHeads.ExamplesBegin` | `backend/src/cucumber-parser.ts:258-270` | an Examples header takes the waiting tags for its rows, expands the block before it, and gives steps no place |
| `GherkinHeads.StepsWithoutItemDropped` | `backend/src/cucumber-parser.ts:258-305` | so steps after an Examples header, and before the first item of a file, are dropped, whatever tags, comments and text stand between them, until a background, scenario or outline begins |
| `CucumberRefs.FreeRef` | `backend/src/routes/manual-tests.ts:53-57` | the renaming loop ends on every input (more candidates than used references) with the first of key, key#2, key#3 and so on that is not in use |
| `CucumberRefs.CountRefs` | `backend/src/routes/manual-tests.ts:42-43` | the map holds the number of occurrences of each reference |
| `CucumberRefs.ResolveCucumberRefs` | `backend/src/routes/manual-tests.ts:37-60` | one reference per scenario, all distinct; a base that occurs once is kept, any other scenario gets the first candidate of its row key that no unique base and no earlier scenario uses |
| `CucumberRefs.RowKeyIs` | `backend/src/routes/manual-tests.ts:37-60` | a scenario goes by its base reference, followed, if it is of an Examples row with cells, by two colons and the cells with a bar between each two |
| `LiveCalm.QueuesAreCalm` | `backend/src/routes/live.ts:307-324` | any number of runs, each with its own queue of events and aborts, beside any number of screenshot uploads, interleaved statement by statement in any way: unless an upload and a spec.finished of one spec without rows are under way together, no summary overwrites the counters of rows |
| `LiveCalm.UploadOverRowsJoins` | `backend/src/routes/live.ts:805-846` | in particular an upload for a spec that has rows may arrive at any time |
| `LiveCalm.QueuedRunsExact` | `backend/src/routes/live.ts:633-681` | so, once nothing is left to do, every spec with rows holds the counts and duration of its rows and every run the sum of its specs |
| `LiveCalm.QueuedTotalsAddUp` | `backend/src/routes/live.ts:504-538` | and if the summaries sent add up, every run's total is passed + failed + skipped + pending |
| `LiveRaceFound.SummaryRace` | `backend/src/routes/live.ts:504-538` | for any spec without rows, any summary of other than one test and any screenshot upload, one interleaving ends with nothing left to do and wrong counters |
| `LiveRaceFound.RaceExactIff` | `backend/src/routes/live.ts:504-538` | a spec.finished beside a screenshot upload for the same spec: every interleaving ends with exact counters if and only if the spec has a row when the two begin or the summary is of one test with no outcome |
| `LiveEvents.StartTestRuns` | `backend/src/routes/live.ts:549-582` | the statements of test.started, run without interruption, end in the state the event stands for |
| `LiveEvents.EndTestRuns` | `backend/src/routes/live.ts:584-631` | the same for test.passed, test.failed and test.skipped |
| `LiveEvents.EndSpecRuns` | `backend/src/routes/live.ts:504-538` | the same for spec.finished, in each of its three outcomes |
| `LiveEvents.ShotRuns` | `backend/src/routes/live.ts:805-846` | the same for a screenshot upload, linked or inserted |
| `LiveEvents.AbortRuns` | `backend/src/routes/live.ts:1005-1034` | the same for an abort: the pending rows, then every affected spec and its run, one after another |
| `LiveStore.LiveDb.FindOrCreateSpec` | `backend/src/routes/live.ts:460-473` | the spec's id, with a row created only when the run and path have none |
| `LiveStore.LiveDb.UpsertPendingTest` | `backend/src/routes/live.ts:549-582` | test.started, in place: a test that has a row keeps it as it is, one without gets a pending row with no time, error or file; then its spec is counted anew from its rows and its run summed from its specs, and nothing else changes |
| `LiveStore.LiveDb.InsertLiveTestResult` | `backend/src/routes/live.ts:584-631` | the end of a test, in place: every row of the test holds the outcome and keeps its files, or a first row is made; its spec and run are counted anew, and nothing else changes |
| `LiveStore.LiveDb.UpdateLiveSpecStats` | `backend/src/routes/live.ts:504-538` | spec.finished, in place: a spec with rows is counted from them; one without takes the summary's total, passed, failed and skipped under their names, and keeps its pending count and duration; its run is summed anew, no other spec changes, and an unknown spec is not made |
| `LiveTells.EndSpecTells` | `backend/src/routes/live.ts:504-538` | the same of the effect that replay, races and calm runs are about |
| `LiveSummary.SummaryStored` | `backend/src/routes/live.ts:504-538` | and the run's counters move by the difference between the spec's old numbers and the summary, number by number |
| `LiveSummary.LastSummaryHolds` | `backend/src/routes/live.ts:504-538` | after any events, a spec that never had a row holds the numbers of the last summary sent for it |
| `LiveSummary.CountersCount` | `backend/src/routes/live.ts:633-655` | a counted spec: total, passed, failed, skipped and pending are the numbers of its rows with that status, the duration the sum over them |
| `LiveTells.SumIsSums` | `backend/src/routes/live.ts:664-681` | a summed run: each counter is the sum of that counter over its specs |
| `LiveStore.LiveDb.PostScreenshot` | `backend/src/routes/live.ts:805-846` | the tables after a screenshot upload, in place |
| `LiveTells.ShotPostedTells` | `backend/src/routes/live.ts:805-846` | what that is: every row of the spec whose title is the given one or ends with it, and that lacks the file, holds it behind those it had, and nothing else changes; if there is none, a pending row of exactly that title gets it, or is made with it, and its spec and run are counted anew |
| `LiveStore.LiveDb.TransitionPendingTestsAfterAbort` | `backend/src/routes/live.ts:1005-1034` | the loop over the affected specs leaves the tables as after the abort |
| `LiveTells.AbortedTells` | `backend/src/routes/live.ts:1005-1034` | what that is: the run's pending rows are skipped, with the reason as their error and their time and files kept, every other row is as it was, exactly the specs of those rows are counted anew, and the run is summed if there were any |
| `LiveStore.AbortLeavesNothingPending` | `backend/src/routes/live.ts:1005-1034` | from exact tables, an abort leaves no pending row of its run, and exact tables |
| `LiveStore.HandlersKeepExact` | `backend/src/routes/live.ts:480-681` | each handler run to its end keeps every spec and run exact, summaries and screenshots included |
| `LiveReplay.BatchTold` | `backend/src/routes/live.ts:549-631` | after a batch of spec and test events from any tables, every test's rows hold its last outcome in the batch and the aggregates it touched are exact |
| `LiveReplay.ReplayChangesNothing` | `backend/src/routes/live.ts:599-612` | processing any batch of spec.started and test events again leaves spec, test and run tables as after once |
| `LiveRows.EventKeepsUnique` | `backend/src/routes/live.ts:555-564` | no spec or test event makes a second row for a test |
| `LiveRows.OneRowLastOutcome` | `backend/src/routes/live.ts:599-612` | each test that ended in a batch has exactly one row, holding its last outcome |
| `LiveRows.LateStartChangesNothing` | `backend/src/routes/live.ts:555-561` | a test.started for a test that has a row, whatever its status, changes nothing |
| `LiveRows.ScreenshotDuplicatesIff` | `backend/src/routes/live.ts:813-846` | an upload makes a second row for its test if and only if the test has a row, none pending, and every row of that title already holds the file |
| `LiveRows.SecondUploadDuplicates` | `backend/src/routes/live.ts:813-846` | once a test has ended, uploading one file for it twice makes a second, pending row |
| `LiveQueue.ServedInOrder` | `backend/src/routes/live.ts:363-381` | under any scheduling, work queued for a run starts in the order it was queued, each piece after all before it have settled, and no two overlap |
| `LiveQueue.NextCanStart` | `backend/src/routes/live.ts:368-381` | a failing piece of work blocks nothing: once all before it have settled, the next can start |
| `LiveQueue.AbortSettles` | `backend/src/routes/live.ts:944-1003` | in every schedule, an abort that was let act four times has settled, whatever its statements met with |
| `LiveQueue.AbortedOnce` | `backend/src/routes/live.ts:944-1003` | sweeper, explicit abort and reconciler together record at most one run.aborted for a run, and it is emitted with no row of the run pending, unless the transition itself failed |
| `LiveQueue.TerminalRunsStay` | `backend/src/routes/live.ts:968-976` | an abort that finds its run gone, finished or aborted settles and leaves no trace |
| `LiveAborts.ActTells` | `backend/src/routes/live.ts:946-1000` | each statement of an abort: the check goes on only for a run that is there, has not finished and was never aborted; then nothing of it is pending, one run.aborted more is recorded, and one emission more is made of what is then pending; nothing else changes |
| `LiveAborts.AbortTakesEffect` | `backend/src/routes/live.ts:946-1000` | an abort that passed its check, none of whose statements fails and whose run is not deleted, takes effect exactly once, whatever happens between its statements and afterwards: nothing is pending when it emits, and the run has one recorded run.aborted and one emission more |
| `LiveQueue.ChainsAreFreed` | `backend/src/routes/live.ts:374-379` | once a run's promises are cleaned up the map holds no entry for it |
| `LiveForget.ServedUntilForgotten` | `backend/src/routes/runs.ts:493-529` | requests that check their run, queue work and register, sweeps, deletions and the queues' own steps, in any order: until a run is forgotten its work is served in order |
| `LiveRequests.AdmittedIff` | `backend/src/routes/live.ts:257-324` | a request has found its run, with its work still to be queued, if and only if its last check that found the run comes after its last post and its last check for another run |
| `LiveRequests.KnownIff` | `backend/src/routes/live.ts:287-397` | a run is registered if and only if it was started, or sent events, since a delete last forgot it |
| `LiveRequests.QueuedAre` | `backend/src/routes/live.ts:324-382` | nothing is queued twice, lost or out of turn: the promises are exactly the work of requests that found their run and the sweeps of registered runs, in the order they were made |
| `LiveForget.ForgottenInOrderIff` | `backend/src/routes/live.ts:394-397` | a run that is deleted keeps its order in every later schedule if and only if at the moment it is forgotten all of its work has settled or no request that found it before the delete has work still to queue |
| `LiveQueue.EventChains.Append` | `backend/src/routes/live.ts:368-381` | the map of chain tails updated in place: the new promise waits for everything the run has queued |
| `LiveQueue.EventChains.Finally` | `backend/src/routes/live.ts:377-379` | a settled promise frees the entry only if no later work was chained on it |
| `LiveBus.InvKeptIff` | `backend/src/live-events.ts:157-289` | an operation of the bus keeps every active run registered and every organisation's deltas in step with its active runs if and only if it is safe: moving an active run to another organisation, an event that activates an unregistered run, and a clean-up of an active run are the unsafe ones |
| `LiveBus.DeltasTellActiveRuns` | `backend/src/live-events.ts:321-342` | in every state reached by runs registered before their events and not restarted inside the clean-up window, deltas add and remove each run in turn and folding them gives exactly the organisation's active runs, in order |
| `LiveBus.NoStaleRunMissed` | `backend/src/live-events.ts:280-290` | the sweep misses no silent active run that is registered, and always misses one that is not |
| `LiveBus.RestartedRunIsLost` | `backend/src/live-events.ts:243-249` | a run active again when its clean-up fires stays active, unregistered, without a timer and invisible to every later sweep |
| `LiveBus.EventSetsTimerIff` | `backend/src/live-events.ts:230-238` | an event leaves the run's timer half an hour ahead if and only if the run had no emitter, or its timer happened to stand there |
| `LiveBus.BusyRunDroppedIff` | `backend/src/live-events.ts:344-356` | however many events a run sends, and whatever other runs do, it stays active and the timer drops it if and only if it fires no earlier than half an hour after the run's first event |
| `LiveEventBus.EventBus.EmitEvent` | `backend/src/live-events.ts:220-255` | the fields after an event, in place: run.started, and any event that finds no emitter, make the run active at the end of the list whether or not it is registered, an ending event takes it out, and every other run keeps its place; its organisation, if it is registered, is sent Added if it became active and Removed if it ended and was active, and nobody is sent anything else |
| `LiveActive.EmitTells` | `backend/src/live-events.ts:219-255` | the same of the operation that the invariants are about |
| `LiveActive.ActiveIffActivatedLast` | `backend/src/live-events.ts:179-255` | after any operations a run, registered or not, is active if and only if its last event that activates comes after its last ending event, deletion or timeout |
| `LiveEventBus.EventBus.UnregisterRun` | `backend/src/live-events.ts:179-194` | the fields after a run is deleted, one by one; Removed goes to its organisation if it was active and registered, before the registration that names the organisation is cleared |
| `LiveEventBus.EventBus.OnTimeout` | `backend/src/live-events.ts:347-355` | the same after the half-hour timer fires |
| `LiveEventBus.EventBus.OnCleanup` | `backend/src/live-events.ts:243-249` | the fields after the delayed clean-up, one by one: nobody is told and the active list stays |
| `LiveEventBus.EventBus.GetActiveRunIds` | `backend/src/live-events.ts:270-277` | the organisation's active runs, which under the invariant are the fold of the deltas it was sent |
| `LiveEventBus.EventBus.GetStaleRuns` | `backend/src/live-events.ts:280-290` | the silent runs with their organisations, none missing under the invariant |
| `RunStatus.ShipsWhenNothingIsPending` | `backend/src/run-status.ts:49-59` | when the counters add up a run is passed exactly if it finished, was not aborted, and nothing failed or is pending |
| `RunStatus.StatusMeans` | `backend/src/run-status.ts:49-59` | and failed exactly if something failed, aborted exactly if nothing failed and it was aborted, incomplete exactly if neither and it has not finished or something is pending |
| `RunStatus.ShipsWhenNothingBlocks` | `backend/src/run-status.ts:49-59` | with exact counters that add up, that means: none of its test rows failed or is pending, and no spec without rows has a summary that counts a failed or pending test |
| `RunStatus.HoldsWhenATestFailed` | `backend/src/run-status.ts:49-59` | with exact counters that add up, a run is failed exactly if one of its rows failed or a summary without rows counts a failure, however it ended |
| `RunMerge.RunTable.FindOrCreateRun` | `backend/src/run-merge.ts:10-74` | uploads with one organisation, suite and CI run id share one row; a merge changes only the finish time and an empty environment, and counters and stored specs not at all |
| `RunMerge.RunTable.StartLive` | `backend/src/routes/live.ts:169-190` | a live start makes a placeholder without counters, specs or finish time, or finds the row there is and changes nothing |
| `RunMerge.RunTable.Ingest` | `backend/src/routes/runs.ts:50-125` | one upload: its run is found or made, its specs are stored one per file, and counters and duration are recalculated from the stored specs exactly when the run was there before; no other run's row changes |
| `RunSpecs.LastSpecStays` | `backend/src/routes/uploads.ts:201-222` | whatever is stored and uploaded in whatever order, the row of a file is the last spec uploaded for it |
| `RunSpecs.StoreCounts` | `backend/src/routes/uploads.ts:201-222` | what is stored and what was overwritten together count what was there and what was uploaded |
| `RunSpecs.StoreAddsUpIff` | `backend/src/routes/uploads.ts:201-222` | what is stored adds up to what was there and what was uploaded if and only if every spec followed by another of its file counts nothing |
| `RunSpecs.OverwrittenEmpty` | `backend/src/routes/uploads.ts:201-222` | where every spec counts its own tests that condition is: specs that are overwritten have no tests |
| `RunMerge.RunIsItsShards` | `backend/src/run-merge.ts:10-120` | from any table on, and however the uploads of all runs arrive, the row of a CI run is what its own shards leave, in their order, over the row it had, if any |
| `RunMerge.RunHoldsLastSpecs` | `backend/src/routes/runs.ts:56-125` | a run holds for each file the last spec uploaded for it, else the one it had; once an upload has merged into its row, be that a live placeholder or an earlier upload's, its counters and duration are the sum of those |
| `RunMerge.ShardsAddUpIff` | `backend/src/run-merge.ts:97-120` | a run's counters are the sum over the specs it had and of its shards' counters if and only if it has a single upload, which made its row, or every spec that a later one of its file overwrites counts nothing |
| `RunMerge.RecalculationReproducesIff` | `backend/src/run-merge.ts:76-120` | recalculating leaves a run's counters as they are if and only if an upload has merged into its row, or no spec that counts something is followed by one of its file in the upload that made it |
| `UploadRows.SpecRows.Reconcile` | `backend/src/routes/uploads.ts:224-359` | the loop over a spec's uploaded tests, in place, under the unique index on pending rows: it goes through if and only if no two pending tests have one title and no old pending row of a pending test's title stands later among the rows of that title than the test among its tests; the rows are then the tests, each under the id specified for it, and otherwise as they were |
| `UploadRows.RowsSurvive` | `backend/src/routes/uploads.ts:239-249` | after an upload a title has as many rows as uploaded tests: the n-th is the row that was its n-th, ids kept, as far as there was one, and every further one is new |
| `UploadRows.TestsInPlace` | `backend/src/routes/uploads.ts:239-249` | and the n-th row of a title holds the n-th uploaded test of that title |
| `UploadRows.UploadAgain` | `backend/src/routes/uploads.ts:224-236` | uploading the same report again leaves every row, id and all, as it is |
| `UploadRows.UploadAgainWritable` | `backend/src/routes/uploads.ts:224-236` | and is never refused |
| `UploadRows.FirstUploadRefusedIff` | `backend/src/routes/runs.ts:97-118` | over a spec without rows, or whose rows are deleted first, a report is refused if and only if two of its pending tests have one title |
| `UploadRows.RefusedOver` | `backend/src/routes/uploads.ts:308-345` | old rows never help: a report refused over none is refused over any |
| `RunMerge.LatestFinish` | `backend/src/run-merge.ts:35-43` | after any shards, the run finished at the latest time any of them, or its row, reported |
| `RunMerge.FinishIgnoresOrder` | `backend/src/run-merge.ts:35-43` | in whatever order they arrived |
| `RunMerge.EnvironmentIs` | `backend/src/run-merge.ts:44-47` | a row that names an environment keeps it, otherwise the first shard to name one decides |
| `RunMerge.EnvironmentIgnoresOrderIff` | `backend/src/run-merge.ts:44-47` | the order in which shards arrive does not matter to the environment if and only if the row names one or all shards that name one name the same |
| `Normalized.SumIsTally` | `backend/src/normalizers/mochawesome.ts:149-162` | summing per-spec counters is counting all tests |
| `Normalized.RunConserves` | `backend/src/normalizers/jest.ts:169-198` | what all five normalizers promise: no test lost or repeated, every spec counting its own, run counters the sums over the specs and adding up |
| `Playwright.CollectFromSuite` | `backend/src/normalizers/playwright.ts:125-211` | the recursive merging of maps groups the depth-first list of tests with results by file, files in order of first occurrence, tests in order |
| `Playwright.TestsInOrder` | `backend/src/normalizers/playwright.ts:125-211` | the tests of a file are all that are filed under it, each once, in the order they are met |
| `Playwright.FilesInOrder` | `backend/src/normalizers/playwright.ts:125-211` | each file is listed once, in the order in which the files are first met |
| `Playwright.MergeChild` | `backend/src/normalizers/playwright.ts:201-208` | merging a child's groups appends its tests: the branch for an empty group, which would drop tests, is never taken |
| `Playwright.ParsePlaywright` | `backend/src/normalizers/playwright.ts:213-285` | every test with a result is in exactly one spec, no spec is empty, and the run conserves its tests with pending written as 0; the run's counters are the numbers of last attempts with each status word |
| `Playwright.ReportTold` | `backend/src/normalizers/playwright.ts:125-200` | in order, each test is what its last attempt says: status by word, title, time, the titles around it that are not empty, filed under its spec's file, else its suite's, else those titles |
| `Playwright.SpecsConserve` | `backend/src/normalizers/playwright.ts:228-253` | the specs hold exactly the grouped tests, as a multiset, and none is pending, so the constant 0 is right |
| `JUnit.ParseTestCase` | `backend/src/normalizers/junit.ts:116-174` | the status assigned step by step: skipped if and only if the case says so, whatever else it says; else failed if and only if it holds a failure or an error; else passed; the duration is the time given in seconds to the nearest millisecond, 0 if it is no positive number |
| `JUnit.FlattenSuites` | `backend/src/normalizers/junit.ts:176-184` | the recursive loop lists every suite before its nested ones |
| `JUnit.FlatKeepsTests` | `backend/src/normalizers/junit.ts:176-184` | flattening loses no test case, repeats none and keeps their order |
| `JUnit.ParseJUnit` | `backend/src/normalizers/junit.ts:255-307` | the specs hold exactly the tree's test cases in order, each as its elements say, and the run conserves them; its counters are the numbers of cases with those elements |
| `Mochawesome.CollectTests` | `backend/src/normalizers/mochawesome.ts:62-88` | the recursive loops list a suite's own tests, then its children's, with their titles |
| `Mochawesome.ParseMochawesome` | `backend/src/normalizers/mochawesome.ts:90-166` | the specs hold exactly the report's tests in order, pending ones included, each as its flags, titles and time say, named after the suites around it, and the run conserves them; its counters are the numbers of tests with those flags |
| `WebdriverIO.CollectTests` | `backend/src/normalizers/webdriverio.ts:80-118` | the recursive loops list a suite's own tests, then its nested suites' |
| `WebdriverIO.ParseWebdriverIO` | `backend/src/normalizers/webdriverio.ts:143-190` | in either report format the specs hold exactly its tests in order, each as its state, names and time say, and the run conserves them; its counters are the numbers of tests in each state |
| `WebdriverIO.ResultFiles` | `backend/src/normalizers/webdriverio.ts:143-165` | the suites of a spec result are filed, in order behind those of the results before it, under its file name, or else its file |
| `Jest.ParseJest` | `backend/src/normalizers/jest.ts:157-199` | the specs hold exactly the report's tests in order, each as its status word, names and time say, with one failed test for each file that could not run, and the run conserves them; its counters are the numbers of results with each status word |
| `Jest.ExecutionErrorFails` | `backend/src/normalizers/jest.ts:112-125` | a file that could not run counts as one failure |
| `ReportFiles.PlaywrightReproduced` | `backend/src/normalizers/playwright.ts:213-285` | Playwright specs have distinct files, so a run's counters are the sums over its stored specs, always |
| `ReportFiles.JUnitReproducedIff` | `backend/src/normalizers/junit.ts:255-307` | a JUnit run's are if and only if no suite with test cases of its own is followed by one with the same file |
| `ReportFiles.MochawesomeReproducedIff` | `backend/src/normalizers/mochawesome.ts:90-166` | a Mochawesome run's are if and only if no result with tests is followed by one of the same file |
| `ReportFiles.WebdriverIOReproducedIff` | `backend/src/normalizers/webdriverio.ts:143-190` | a WebdriverIO run's are if and only if no suite with tests is followed by one of the same spec file |
| `ReportFiles.JestReproducedIff` | `backend/src/normalizers/jest.ts:157-199` | a Jest run's are if and only if no file with results, or that could not run, is followed by one shown the same |
| `ReportFiles.TwoSuitesInOneFile` | `backend/src/normalizers/webdriverio.ts:143-190` | a WebdriverIO spec file with two suites, the first of them with a test, is an input for which they are not |
| `Tickets.OneRecordedIssue` | `backend/src/integrations/jira.ts:134-187` | any callers, any interleaving, any lock hash, failures anywhere and commits whose answer is lost: one recorded issue per failure at most, and every key returned is the recorded one |
| `TicketEnds.ReadReturns` | `backend/src/integrations/jira.ts:125-167` | a caller whose failure has a row returns the recorded key, at its first read or, under the lock, at its second, which then leaves the lock free; rows and issues stay as they are |
| `TicketEnds.EndsIff` | `backend/src/integrations/jira.ts:113-195` | in any interleaving a caller has failed if and only if a query of its own failed, its own remote call returned no key or its own commit was not answered, and it has returned a key if and only if it read that key or committed it itself |
| `TicketEnds.EndsWithTheKey` | `backend/src/integrations/jira.ts:113-195` | so a caller that has ended without a failure of its own returned the key that is recorded |
| `TicketEnds.RecordTells` | `backend/src/integrations/jira.ts:174-187` | insert and commit record the issue's key for the caller's failure, once, and free the lock |
| `TicketEnds.WaitingEnds` | `backend/src/integrations/jira.ts:147-158` | no lock outlives its transaction: in every reachable state a caller that wants the lock can have it, at once or as soon as the caller that holds it has ended, be it by failing |
| `Tickets.OneLiveIssue` | `backend/src/integrations/jira.ts:134-172` | of the issues created remotely for one failure at most one is not lost to a rollback |
| `Tickets.CreatesOnlyAfterRollback` | `backend/src/integrations/jira.ts:169-172` | a caller reaches the remote create only when every earlier issue for the failure is lost |
| `Tickets.InsertNeverClashes` | `backend/src/integrations/jira.ts:174-185` | a caller about to insert never meets a row: the unique index is not needed |
| `Tickets.IssueTable.CreateIssueForFingerprint` | `backend/src/integrations/jira.ts:113-195` | one caller alone, failing at any statement, at the remote call or after a commit whose answer is lost: the key it returns, the rows recorded and the issues left behind, as a run of the step protocol |
| `Tickets.NoFailureLost` | `backend/src/integrations/jira.ts:207-224` | selected and dropped together are the run's own failed counter |
| `Tickets.SelectedAreFirst` | `backend/src/integrations/jira.ts:207-224` | the selected failures are the first failed tests of the run, up to the cap, each once, in the order of the run and with the spec it is in; the rest are counted as dropped |
| `Clustering.ComputeSimilarity` | `backend/src/ai.ts:256-265` | the counting loop gives the share of the larger vocabulary that both texts use |
| `Clustering.ScoreIs` | `backend/src/ai.ts:256-265` | that share: the number of words both use over that of the text with more, and 0 when one has none |
| `Clustering.TokensOfParts` | `backend/src/ai.ts:256-258` | the words of a text are those of its parts on either side of any white space |
| `Clustering.TokensOfWord` | `backend/src/ai.ts:256-258` | a part without white space is one word, cleaned, if anything is left of it |
| `Clustering.ScoreRange` | `backend/src/ai.ts:256-265` | the score is symmetric, between 0 and 1, and 1 exactly for texts of the same, and some, words |
| `Clustering.ClusterBySimilarity` | `backend/src/ai.ts:278-297` | the nested loops give the clusters of the specification: none is empty, each member after the first scores at least the threshold against the first, each member scores less against the first of every earlier cluster, and together they hold exactly the items |
| `Clustering.MembersInOrder` | `backend/src/ai.ts:278-297` | the members of a cluster are items, each at its own place, in input order |
| `Clustering.PlacedByThreshold` | `backend/src/ai.ts:270-275` | each item is near to its own seed, or is it, and near to no earlier cluster's seed |
| `Clustering.SeedsFarApart` | `backend/src/ai.ts:270-275` | seeds are pairwise below the threshold |
| `Clustering.ClustersPartition` | `backend/src/ai.ts:278-297` | every item is in exactly one cluster and no cluster holds anything else |
| `Clustering.SeedsStandAlone` | `backend/src/ai.ts:270-275` | clustering the seeds alone gives each a cluster of its own |
| `Clustering.NearItselfIff` | `backend/src/ai.ts:256-265` | a text is near to itself if and only if the threshold is at most 0, or at most 1 and the text has words; texts without words are near to nothing above 0 |
| `Coverage.FormatCoveragePct` | `backend/src/integrations/coverage-gate.ts:44-54` | the search loop shows the first of one to six decimals that agrees with the decision, else the fallback |
| `Coverage.DisplayNeverContradicts` | `backend/src/integrations/coverage-gate.ts:35-54` | for every coverage and threshold the number shown is on the decision's side, with the fewest decimals that are, within half a unit of its last place (section 21.1.3.3 of ECMA-262), or within a millionth in the fallback |
| `Coverage.FixedIsNearest` | `backend/src/integrations/coverage-gate.ts:46` | the rounding: a whole number of units of the last place, at most half a unit away, and of two as near the one further from zero |
| `Coverage.CoverageStatusContent` | `backend/src/integrations/coverage-gate.ts:61-71` | the state is the exact decision, and the number shown agrees with it |
| `Coverage.HowManyDecimals` | `backend/src/integrations/coverage-gate.ts:39-49` | one decimal whenever coverage is more than half a tenth from the threshold; the fallback only within half a millionth of it |

## Left out

- Text is a sequence of Unicode scalar values: unpaired surrogates, and the order of keys that differ only beyond the basic plane, are not modelled.
- JSON numbers are held as their decimal text, `detail` as stored JSON, times as microseconds with the ISO form as decimal milliseconds: number formatting and date formatting are left out.
- AuditVerify.VerifyAuditChain: the table is read through a finite list of successive contents, the last one standing for every later page; it may change any number of times, not infinitely often.
- AuditAppend.EveryReachableLogVerifies: the run starts from logs that verify, with rows that predate the chain unhashed, as the migration leaves them; rows written around the append path are the subject of `AuditTamper`.
- `logAudit`, which swallows the failure of an append.
- AuditExport.SingleFlight: an instance that loses its database connection, and with it the lock, in the middle of a tick ends there (a crash step); one that goes on shipping without its lock is not modelled.
- Export: failure counters, error text, formats, object keys and the two delivery channels; a delivery succeeds or fails.
- AuditExport.AuditExporter.FlushConfig: rows that writers commit between a batch's read and its cursor write are counted as arriving before the next read; every other moment is in the steps of `AuditPipeline.DeliveredInChainOrder`.
- Gherkin: the references `currentSteps` and `lastStep` into shared step objects are modelled as the place where the object lives; `scenarioToManualSteps` is left out.
- GherkinFeature.FeatureRoundTrip: well-formed sources only (every attachment follows a step of its own item, descriptions only under the feature header, no comments or blank lines between steps); what other inputs do is `GherkinReader.ParseFeature` and `GherkinStray`.
- Live tables: metadata, snapshots, retries and error text beyond the abort reason; the `live_events` log except run.aborted; a run deleted while a handler is at work is modelled as a run that is not there.
- LiveCalm.QueuedRunsExact: statements succeed; a statement that fails after its rows were written leaves the aggregates to the next event of the spec. An upload together with a spec.finished of a spec without rows is the subject of `LiveRaceFound.RaceExactIff`, one beside one.
- GherkinTexts.FillsAllTextsIff: headers without angle brackets. Rows with several cells that hold an angle bracket, and repeated headers, have the sufficient conditions of `GherkinTexts.SubstitutionFillsText` and `GherkinExamples.SubstitutionFillsHoles` and the failing texts of `GherkinTexts.ClashingCellFails`; `GherkinTexts.ClashYetAlwaysRight` shows that the conditions are not necessary for them, since a later column can undo what an earlier one did.
- LiveQueue.AbortedOnce: pending rows change only through the run's queue; a screenshot upload is on no queue and can insert a pending row after the transition.
- LiveReplay.ReplayChangesNothing: screenshots and spec.finished are not part of the batch; the first is the subject of `LiveRows.ScreenshotDuplicatesIff`.
- Events of one run handled by several backend processes, and their broadcast, are not ordered by any queue and are left out; so are streams, listeners and the stale sweep's schedule.
- LiveBus.DeltasTellActiveRuns: time enters as due times of timers and clean-ups, and a clean-up or timer fires at any moment at or after its own.
- The reconciler's loop over organisations and its count.
- RunMerge.RunTable.Ingest: an upload that goes through; one that is refused is rolled back whole (`UploadRows.SpecRows.Reconcile` has when its test rows are). Finish times are numbers; branch, commit, reporter and start time, which a merge leaves alone, are not kept.
- UploadRows.SpecRows.Reconcile: titles, errors, screenshots, snapshots and videos folded into a row; new ids are consecutive, where other writers may take ids in between.
- Normalizers: metadata, errors, screenshots, videos, tags and dates; XML parsing and number parsing (a duration is a finite number or not one); durations and their sums are reals, not floating-point numbers; JUnit's rounding to milliseconds is modelled.
- Jest.ParseJest: the displayed path, a regular expression over the file path, is given with the suite.
- Tickets: summaries, URLs, Jira configuration, transitions and webhooks; a caller without configuration returns before any step.
- Clustering.ScoreRange: over reals; the quotient of two small integers is not rounded.
- Coverage.DisplayNeverContradicts: over reals, and of the number shown, not of its text.
- HTTP routing, authentication, row-level security, connection pooling, storage and mail.
