# Models and proofs of Stormpiper's background computations

Stormpiper keeps stormwater results for a city in database tables that long-running
tasks rebuild. This project models six of its mechanisms in Dafny and proves what each
is for, over whole runs and all inputs. `dafny verify dfyconfig.toml` checks everything.

* **Staleness** (`Digraphs`, `Staleness`, `Changelogs`, `Warehouse`, `Workflows`, `Tables`,
  `Refresh`, `RefreshRuns`, `FacilityAttributes`, `RefreshFills`, `Guards`). Every rebuild moves its table
  to the end of a changelog. `is_dirty` removes unlogged tables from a dependency graph,
  connecting around them, and compares positions recursively. The graph elimination is
  proved against paths, the recursion against one order on the changelog, and the answer
  "clean" against a full recomputation; the nightly refresh and the results pipeline are
  proved over every interleaving of their stages. `tmnt_facility_attribute` has two parts
  under one name: what users enter, and the subbasin in which the attribute task located
  each facility.
* **Scenario cache** (`CostEffectiveness`, `Scenarios`, `ScenarioRuns`). A PATCH compares
  digests and clears cached results, a solve snapshots the row and writes all of it back
  later. Coherence is proved over every interleaving, and incremental solves are
  compared with full ones.
* **Task locks** (`SingletonLock`, `Singletons`, `JsonText`, `LockKey`). The submit loop over
  SET NX, GET and DEL as a step system and as an imperative loop that is one of its runs;
  the text below a lock's key is proved unambiguous.
* **PROMETHEE II** (`Preferences`, `Promethee`, `Priorities`). The chunked accumulation is
  proved equal to the plain double sum, and the algebra of flows and scores follows.
* **Source controls** (`Reductions`, `SourceControls`). Loads threaded through passes of
  percent reductions, and the subtraction that follows.
* **Present value** (`PresentValue`). Horizon, replacement schedule, cumulative totals.

`Options` holds the one shared datatype. Numbers are reals except years and cents.
Earth Engine, nereid, ArcGIS, the overlay and the escalation and discount factors are
parameters. Water quality is taken to depend on the physical attributes of facilities,
not on their cost columns. Digests (SHA-256, MD5) are taken to be injective.

## What the proofs found

* Three reads behind `subbasin_result` are missing from the dependency list: `lgu_boundary`
  is also built from `tmnt_facility` (`stormpiper/stormpiper/src/tmnt/spatial.py:40-52`), and
  the attribute task locates `tmnt_facility` in `subbasin`
  (`stormpiper/stormpiper/src/tmnt/default_attrs.py:168-205`). The check also passes over
  computed tables that were never logged. So `subbasin_result` can be reported clean and be
  stale. `Guards.CleanIsFreshExactlyWhen` gives the exact condition on the history of
  writes: every computed table was last written by a rebuild, and the three reads were in
  order. It cannot be read off the changelog, where a user's edit of an attribute looks
  like a fill (`Guards.ChangelogCannotTell`).
* The attribute task writes rows for new facilities only. Played inside a completed
  `refresh_all`, after any earlier history and in every interleaving, it leaves the shown
  facilities where they now lie exactly when the locations recorded before still hold
  (`RefreshFills.LocatedExactlyWhen`). Then the results are fresh however tables are
  computed (`RefreshFills.RefreshedIsFresh`); otherwise they end clean and, with builders
  that pass the shown locations on to the results, stale
  (`RefreshFills.RefreshedIsFreshExactlyWhen`). The condition on writes above asks for
  more: also for a new facility and for none gone.
* The reduction loop indexes its list of passes by the order's *value*
  (`stormpiper/stormpiper/src/results.py:135-141`). With orders that are not negative it
  fails rather than looking up a wrong pass, exactly when some order but the last is not
  its own position. A negative order can silently look up another pass: three controls of
  50 percent with orders -1, 0 and 1 take all of a load of which an eighth should stay.
* A group without a control at the pass looked up starts again from its original load. What
  is taken off is what the controls jointly take off exactly when the load is zero or no
  pass reduces a load from which an earlier reduction is missing; with positional orders,
  when no gap separates two controls that take something off.
* A flow can exceed 1 exactly when a preference function rewards a tie (negative thresholds).
* Filling in what is missing of a scenario equals solving it from scratch, but for the time,
  exactly when there was no result yet or the facility records embedded in the result are
  the ones the row now holds. They differ once a facility has got a cost, and also after a
  PATCH with the same input under other cost settings, which keeps the result and replaces
  the records.
* A write of a solved scenario keeps what a PATCH asked for exactly when name, info and
  input of the row are still those of its snapshot; any change in between is lost,
  coherently.
* `celery_app.send_task` (`stormpiper/stormpiper/api/endpoints/bg_worker.py:33-38`) queues
  a task without its lock, and that task unlocks its key when done. While locks and holders
  match, a step keeps mutual exclusion for good exactly when it is not such a bypass. From
  any state, exclusion lasts exactly when no two tasks share a key now and the key of each
  is set.
* An answer "duplicate of" names the holder of the key. That task is sure to have been
  queued exactly when its submission had gone through before the answer; while it is
  submitting, or giving its lock back, it may never run.
* A present-value table cannot be built for a lifespan of zero, nor without a lifespan when
  the planning horizon is zero years.

## Model

| member | source | states |
|---|---|---|
| Digraphs.SimplifyGraph | stormpiper/stormpiper/database/dependencies.py:49-62 | the in-place elimination, in any node order, gives the listed nodes with an edge exactly where a path has only unlisted nodes inside; the argument is untouched |
| Digraphs.DiGraph.Bypass | stormpiper/stormpiper/database/dependencies.py:56-60 | one elimination: all predecessor-successor edges are added, then the node and its edges go |
| Digraphs.ThroughOneMore | stormpiper/stormpiper/database/dependencies.py:56-60 | a path that may also pass through one more node either avoids it or goes in and out of it once; the law of one elimination, self-loops included |
| Digraphs.SimplifiedKeepsReachability | stormpiper/stormpiper/database/dependencies.py:50-52 | between listed nodes, reachability is the same in the simplified and the original graph |
| Digraphs.SimplifiedAcyclic | stormpiper/stormpiper/database/dependencies.py:49-62 | an acyclic graph stays acyclic |
| Staleness.CheckIfSorted | stormpiper/stormpiper/database/dependencies.py:65-82 | true exactly when every predecessor stands before the table; `max` and `index` never fail |
| Staleness.IsDirty | stormpiper/stormpiper/database/dependencies.py:85-109 | terminates on every graph, cyclic ones included, and answers by paths of the original graph alone |
| Staleness.SortedMeansInOrder | stormpiper/stormpiper/database/dependencies.py:85-101 | a passed recursive check orders every pair of logged tables above the table |
| Staleness.InOrderMeansSorted | stormpiper/stormpiper/database/dependencies.py:85-101 | and the other way round |
| Staleness.InOrderSimplified | stormpiper/stormpiper/database/dependencies.py:104-109 | the order demanded on the simplified graph is the one demanded on the original |
| Staleness.CleanAncestors | stormpiper/stormpiper/database/dependencies.py:97-101 | what a clean table rests on is clean |
| Changelogs.MoveToEndOrder | stormpiper/stormpiper/database/changelog.py:15-30 | logging moves one table behind all others and leaves their order |
| Changelogs.ChangeLog.SyncLog | stormpiper/stormpiper/database/changelog.py:9-32 | update-or-insert of one time stamp, whatever the stamp |
| Changelogs.RestampMovesToEnd | stormpiper/stormpiper/database/changelog.py:15-30 | the sequence sorted by time moves that table to its end exactly when the new stamp is later than all others |
| Changelogs.RepresentedOrder | stormpiper/stormpiper/database/dependencies.py:112-122 | in the sequence read back, position follows time stamp |
| Changelogs.RepresentedByOne | stormpiper/stormpiper/database/dependencies.py:112-122 | only one sequence is sorted by the time stamps |
| Changelogs.LogByLast | stormpiper/stormpiper/database/changelog.py:20-28 | after any writes the changelog is in the order of last writes |
| Changelogs.LoggedAgain | stormpiper/stormpiper/database/changelog.py:20-28 | an entry is forgotten once its table is logged again |
| Warehouse.Database.DeleteAndReplace | stormpiper/stormpiper/database/utils.py:100-132 | contents replaced and table logged, nothing else changed |
| Warehouse.Database.Refresh | stormpiper/stormpiper/src/tasks.py:155-167 | a task that reads, builds and replaces its table is one step of the system |
| Warehouse.RebuiltIsCurrent | stormpiper/stormpiper/database/utils.py:115-132 | after every run of edits and rebuilds, edits of computed tables included, a table last written by a rebuild with no input written since holds what building it now would give |
| Warehouse.SettledReadsFresh | stormpiper/stormpiper/database/dependencies.py:104-109 | where everything a table is computed from was written in order, reads equal a full recomputation, through views as well |
| Warehouse.CleanIsFresh | stormpiper/stormpiper/database/dependencies.py:104-109 | soundness of "clean" after any run, for any pipeline whose computed ancestors were last rebuilt and whose undeclared reads were in order |
| Warehouse.UndeclaredReadGoesUnnoticed | stormpiper/stormpiper/database/dependencies.py:104-109 | an edit of a table that is no ancestor changes neither verdict nor rows |
| Tables.GraphAcyclic | stormpiper/stormpiper/database/dependencies.py:18-46 | the dependency list describes an acyclic graph |
| Tables.ResultAncestorsAreAll | stormpiper/stormpiper/database/dependencies.py:18-40 | exactly which tables `subbasin_result` rests on |
| Tables.FacilityViewAncestors | stormpiper/stormpiper/database/dependencies.py:18-46 | exactly which tables `tmnt_v` rests on |
| Tables.ResultViewAncestors | stormpiper/stormpiper/database/dependencies.py:18-46 | `result_v` rests on `result_blob` and on all that rests below it |
| Tables.CostAncestors | stormpiper/stormpiper/database/dependencies.py:18-46 | costs and scenarios rest on the cost settings alone, and these on nothing |
| Workflows.RunTracked | stormpiper/stormpiper/bg_worker.py:213-256 | over every interleaving of staged chains: what is written, and in which order the changelog shows it |
| Workflows.CompletedRun | stormpiper/stormpiper/bg_worker.py:192-256 | a completed staged run that respects the graph ends clean exactly when every logged table it leaves alone was clean |
| Workflows.AbandonedRun | stormpiper/stormpiper/bg_worker.py:40-52 | a run abandoned anywhere after rewriting an ancestor leaves the logged table dirty |
| Workflows.FailureStopsRun | stormpiper/stormpiper/bg_worker.py:40-81 | after any task of a run has failed no later stage begins, whatever happens besides |
| Workflows.ChainResultExactlyWhen | stormpiper/stormpiper/bg_worker.py:40-52 | tasks chained by their flags return true exactly when no function raised, and end in an exception exactly when one before the last did |
| Workflows.CanComplete | stormpiper/stormpiper/bg_worker.py:192-256 | from any point at which nothing has failed the run can be completed, and any of its optional tables may stay unwritten |
| Refresh.RefreshAllEndsClean | stormpiper/stormpiper/bg_worker.py:213-256 | every completed interleaving of `refresh_all` leaves `subbasin_result` clean |
| Refresh.ResultsPipelineEndsClean | stormpiper/stormpiper/src/tasks.py:301-306 | the results pipeline alone ends clean exactly when `lgu_load` and `lgu_boundary`, where logged, were clean |
| Refresh.AbandonedRefreshIsDirty | stormpiper/stormpiper/bg_worker.py:250-256 | a refresh that stops early after rewriting any ancestor leaves the results dirty |
| Refresh.OnlyUndeclaredReads | stormpiper/stormpiper/src/tmnt/default_attrs.py:168-205 | of all reads that fill `subbasin_result` and what it rests on exactly three are missing from the dependency list: two here, one at `spatial.py:40-52` |
| Refresh.DirectReads | stormpiper/stormpiper/database/dependencies.py:18-46 | every declared dependency of a computed table or view is read, and which reads are no direct dependency |
| Refresh.CleanResultsAreFresh | stormpiper/stormpiper/database/dependencies.py:104-122 | clean, rebuilt and guarded results are a full recomputation from facilities, subbasins and the other base tables, for all builders and runs |
| RefreshFills.RefreshMeetsGuardsExactlyWhen | stormpiper/stormpiper/bg_worker.py:213-256 | after any earlier history every completed interleaving, with the attribute task acting on what it finds, is reported clean, and is rebuilt and guarded exactly when a facility is new, no recorded one is gone, and each lies where recorded |
| RefreshFills.RefreshCanRun | stormpiper/stormpiper/bg_worker.py:213-256 | after any earlier history, whatever is fetched, such a refresh exists |
| RefreshFills.FillIsDecided | stormpiper/stormpiper/src/tmnt/default_attrs.py:168-213 | whether that task writes, and what, follows from what was recorded before the refresh and fetched by its first stage, in every interleaving |
| RefreshFills.LocatedExactlyWhen | stormpiper/stormpiper/src/tmnt/default_attrs.py:168-213 | the shown locations that the refresh leaves are where the facilities now lie exactly when the recorded ones of present facilities still hold |
| RefreshFills.RefreshedIsFresh | stormpiper/stormpiper/bg_worker.py:213-256 | all stages together: where the recorded locations still hold, the results are a full recomputation, for all builders that read the locations joined with the facilities |
| RefreshFills.RefreshedIsFreshExactlyWhen | stormpiper/stormpiper/bg_worker.py:213-256 | for builders that pass the shown locations on, fresh if and only if the recorded locations still hold |
| RefreshFills.RefreshEndsEitherWay | stormpiper/stormpiper/bg_worker.py:213-256 | for all recorded locations, facilities and subbasins there is such a clean refresh, fresh exactly when the locations hold |
| Refresh.DeleteAndRefreshAllResultsTables | stormpiper/stormpiper/src/tasks.py:225-306 | the seven tables are rebuilt in order, each from what the earlier ones wrote |
| Refresh.PipelineTaskEndsClean | stormpiper/stormpiper/src/tasks.py:301-306 | for the application with any builders the seven rebuilds are possible, and what they leave behind is clean exactly when its two inputs were |
| Guards.CleanIsFreshExactlyWhen | stormpiper/stormpiper/database/dependencies.py:104-109 | for every history of writes reported clean: fresh for all builders, contents and edits if and only if every computed table was last written by a rebuild and the three undeclared reads were in order |
| Guards.FacilityRefreshGoesUnnoticed | stormpiper/stormpiper/src/tmnt/spatial.py:40-52 | concrete writes: facilities replaced after the boundaries, results pipeline run: clean and all rebuilt, yet unguarded |
| Guards.SubbasinRefreshGoesUnnoticed | stormpiper/stormpiper/src/tmnt/default_attrs.py:173-187 | concrete writes: subbasins replaced after the facilities were located, everything else rebuilt: clean, yet unguarded |
| Guards.ChangelogCannotTell | stormpiper/stormpiper/database/changelog.py:9-32 | two concrete histories leave one changelog, reported clean; the results of one are to be trusted, of the other not |
| Guards.UnloggedTablesAreTrusted | stormpiper/stormpiper/database/dependencies.py:56-60 | concrete writes: results logged alone are reported clean |
| FacilityAttributes.AttributeTable.UpdateTmntAttributes | stormpiper/stormpiper/src/tmnt/default_attrs.py:168-213 | facilities without a row get default attributes and a location, the others keep both unless overwritten; logged exactly when there are such facilities |
| FacilityAttributes.FilledRow | stormpiper/stormpiper/src/tmnt/default_attrs.py:168-213 | facility by facility: a row that is there keeps attributes and location, a new facility gets its defaults and the subbasin of its place, or "None" |
| FacilityAttributes.FillIsFullExactlyWhen | stormpiper/stormpiper/src/tmnt/default_attrs.py:173-187 | a fill leaves every present facility located where it now lies exactly when the recorded locations still hold |
| FacilityAttributes.FillIsOverwriteExactlyWhen | stormpiper/stormpiper/src/tmnt/default_attrs.py:173-187 | a fill leaves the very rows of an overwriting one exactly when, besides, no row of a vanished facility was there |
| FacilityAttributes.OverwriteIsFull | stormpiper/stormpiper/src/tmnt/default_attrs.py:177-187 | an overwriting fill locates every facility, whatever was there |
| FacilityAttributes.FilledTwice | stormpiper/stormpiper/src/tmnt/default_attrs.py:173-184 | a second fill changes nothing, whatever has become of the subbasins |
| CostEffectiveness.MaybeIncludeCostEffectiveness | stormpiper/stormpiper/src/scenario.py:48-86 | the nested loops in place give every facility exactly its cost columns, or leave all records alone |
| CostEffectiveness.PricedByOwnResult | stormpiper/stormpiper/src/scenario.py:48-86 | the first row of a facility's own node, of type `tmnt_facility` and epoch `1980s`, prices it: present value over the pounds that row removes, where any |
| CostEffectiveness.UnpricedWithoutResult | stormpiper/stormpiper/src/scenario.py:58-73 | without such a row it gets no cost, and keeps its record when no facility has one |
| CostEffectiveness.FillCosts | stormpiper/stormpiper/src/scenario.py:79-84 | a column is the present value over the pounds removed exactly where any are removed |
| CostEffectiveness.WithCostsTwice | stormpiper/stormpiper/src/scenario.py:64-86 | pricing priced facilities changes nothing |
| CostEffectiveness.CostTimesRemoved | stormpiper/stormpiper/src/scenario.py:68-84 | when a cost is given, and that cost times removal is the present value |
| Scenarios.ScenarioValidator | stormpiper/stormpiper/models/scenario_validator.py:47-90 | which digests and facility records a submitted input sets, and which it leaves unset |
| Scenarios.ScenarioStore.UpdateScenario | stormpiper/stormpiper/api/endpoints/scenario.py:121-171 | the row after a PATCH: columns set, digests compared, results cleared |
| Scenarios.PatchedNames | stormpiper/stormpiper/api/endpoints/scenario.py:121-171 | name and info end as the patch says, null and absent told apart; without an input nothing else changes |
| Scenarios.PatchedInput | stormpiper/stormpiper/api/endpoints/scenario.py:121-171 | with an input, every column: digests of the submitted input and of the validated delineations, what is cleared and what kept, and the time |
| Scenarios.PatchedFacilities | stormpiper/stormpiper/models/scenario_validator.py:47-90 | one record for each submitted facility, in order, priced under the settings at hand |
| Scenarios.PatchedAway | stormpiper/stormpiper/api/endpoints/scenario.py:121-171 | an input set to null: what goes, and what outlives it |
| Scenarios.ScenarioData.SolveScenarioData | stormpiper/stormpiper/src/scenario.py:89-168 | the dictionary after an in-place solve, under its two flags, empty collections counting as missing, and when it fails |
| Scenarios.SolvedColumns | stormpiper/stormpiper/src/scenario.py:89-168 | every column but records and result from the row's own fields: when loads and results are computed, from what, when the solve fails, and when the time is set |
| Scenarios.SolvedResult | stormpiper/stormpiper/src/scenario.py:105-160 | a computed result comes from the boundary and load of the solved row and the attributes of the facilities it had |
| Scenarios.ScenarioStore.SolveScenarioDb | stormpiper/stormpiper/src/scenario.py:171-189 | the whole row is overwritten by the snapshot |
| ScenarioRuns.UpdateKeepsWhatStillHolds | stormpiper/stormpiper/api/endpoints/scenario.py:135-155 | a PATCH drops a load exactly when the validated delineations change and a result exactly when the submitted input changes |
| ScenarioRuns.UpdatedIsCoherent | stormpiper/stormpiper/api/endpoints/scenario.py:132-161 | a PATCH keeps the row coherent, also when an old digest outlives a removed delineation |
| ScenarioRuns.SolvedIsComplete | stormpiper/stormpiper/src/scenario.py:89-168 | solving a coherent row never fails and leaves nothing missing |
| ScenarioRuns.RunKeepsCoherent | stormpiper/stormpiper/api/endpoints/scenario.py:121-235 | over every interleaving of PATCHes, snapshots and repeated or dropped writes, row and snapshots stay coherent |
| ScenarioRuns.WriteCompletesSnapshot | stormpiper/stormpiper/src/scenario.py:171-184 | after any run a write leaves a complete row for its snapshot's input |
| ScenarioRuns.WriteKeepsRequestExactlyWhen | stormpiper/stormpiper/src/scenario.py:171-184 | after any run a write puts back the name, info and input of its snapshot, so each survives exactly when it is still the snapshot's |
| ScenarioRuns.SnapshotWritten | stormpiper/stormpiper/src/scenario.py:171-189 | a snapshot written at once is a solve of the row under the flag of its request |
| ScenarioRuns.LostTaskIsAlone | stormpiper/stormpiper/src/scenario.py:171-189 | the loss of one solve task changes no write of another |
| ScenarioRuns.PatchIsLost | stormpiper/stormpiper/src/scenario.py:171-184 | a run, for any two inputs that are stored differently, whose second input is overwritten by the first, completely solved |
| ScenarioRuns.IncrementalIsFull | stormpiper/stormpiper/src/scenario.py:89-103 | on a coherent row an incremental and a forced solve agree on every column but times and embedded records |
| ScenarioRuns.IncrementalIsFullExactlyWhen | stormpiper/stormpiper/src/scenario.py:89-168 | on every coherent row an incremental solve equals a forced one but for the time exactly when there was no result or its embedded records are the present ones |
| ScenarioRuns.NewSettingsKeepOldRecords | stormpiper/stormpiper/api/endpoints/scenario.py:132-161 | a PATCH with the same input under other settings keeps the result and replaces the records; a forced solve then differs exactly when the records do, no cost being involved |
| ScenarioRuns.SettingsWitness | stormpiper/stormpiper/api/endpoints/scenario.py:132-161 | concrete solvers and settings for which it does |
| ScenarioRuns.SolvedTwice | stormpiper/stormpiper/src/scenario.py:89-168 | for any row, solving again changes nothing, times and costs included |
| ScenarioRuns.ForcedAgainExactlyWhen | stormpiper/stormpiper/src/scenario.py:145-160 | a forced solve of a row just solved repeats it, but for the time, exactly when the embedded records are the row's |
| ScenarioRuns.ForcedAgainIffNoCosts | stormpiper/stormpiper/src/scenario.py:145-160 | the case of a row that held no result and no costs before: exactly when no facility got a cost |
| SingletonLock.MutualExclusion | stormpiper/stormpiper/bg_utils/singleton.py:83-154 | in every run with failing submissions a key has at most one task being submitted or in flight, and is set exactly when there is one, to its id |
| SingletonLock.StepKeepsLocks | stormpiper/stormpiper/bg_utils/backends/redis.py:13-20 | every step of a client or worker keeps locks and holders matched |
| SingletonLock.NothingLeftLocked | stormpiper/stormpiper/bg_utils/singleton.py:123-154 | once all calls and tasks have ended no key is left |
| SingletonLock.FinishFreesKey | stormpiper/stormpiper/bg_utils/singleton.py:135-154 | a finished task leaves the flight and its key, and the next call that tries the key gets it |
| SingletonLock.EveryRunCanDrain | stormpiper/stormpiper/bg_utils/singleton.py:123-154 | every run without a bypass can go on, without one, until nothing is in flight, held or locked |
| SingletonLock.RetryBound | stormpiper/stormpiper/bg_utils/singleton.py:111-121 | failed attempts are at most one more than the unlocks seen, own steps at most twice those plus three, and a call that has not ended can always take a step |
| SingletonLock.DuplicateHeldTheKey | stormpiper/stormpiper/bg_utils/singleton.py:115-121 | an id that GET returns is the holder's at that moment; without one nobody holds the key |
| SingletonLock.DuplicatesAreReal | stormpiper/stormpiper/bg_utils/singleton.py:142-148 | in every run an answered duplicate is another call that had locked the same key |
| SingletonLock.DuplicateRunsExactlyWhen | stormpiper/stormpiper/bg_utils/singleton.py:115-133 | from any state in which locks and holders match, the answer names the holder, and no later run fails that task's submission if and only if it had gone through before |
| SingletonLock.BypassBreaksExclusion | stormpiper/stormpiper/api/endpoints/bg_worker.py:33-38 | a step from any state in which locks and holders match keeps exclusion in all later runs without bypass if and only if it is no `send_task` |
| SingletonLock.ExclusionLastsExactlyWhen | stormpiper/stormpiper/bg_utils/singleton.py:83-154 | from any state whatever, exclusion lasts in all runs without further bypass if and only if no two holders share a key and each holder's key is set |
| Singletons.World.ApplyAsync | stormpiper/stormpiper/bg_utils/singleton.py:111-121 | the retry loop ends whatever the others do, bypasses included, as a run of the step system, with the answer its call ended on |
| Singletons.World.LockAndRun | stormpiper/stormpiper/bg_utils/singleton.py:123-133 | nothing when the lock is taken; otherwise the task, or the broker's error with the lock given back |
| Singletons.RedisBackend.Lock | stormpiper/stormpiper/bg_utils/backends/redis.py:13-14 | sets the key exactly when it is absent, and says so |
| JsonText.EscapeTells | stormpiper/stormpiper/bg_utils/util.py:12-17 | the escapes of RFC 8259 section 7, surrogate pairs included, tell the character and where it ends |
| JsonText.LettersSpelled | stormpiper/stormpiper/bg_utils/util.py:12-17 | the seven escapes with a letter |
| JsonText.EscapesSpelled | stormpiper/stormpiper/bg_utils/util.py:12-17 | all other control characters, and all from code 127 on in the first plane, are `\u` and the four lower-case hexadecimal digits of the code |
| JsonText.SurrogatesSpelled | stormpiper/stormpiper/bg_utils/util.py:12-17 | beyond it, a high and a low surrogate that add up to the code |
| JsonText.PlainText | stormpiper/stormpiper/bg_utils/util.py:12-17 | printable ASCII stands for itself, between quotes |
| JsonText.SimpleTexts | stormpiper/stormpiper/bg_utils/util.py:12-17 | null, the booleans and numbers |
| JsonText.ArrayText | stormpiper/stormpiper/bg_utils/util.py:12-17 | items are joined by a comma and a space, between brackets |
| JsonText.ObjectText | stormpiper/stormpiper/bg_utils/util.py:12-17 | and so are members, key, colon, space and value, in key order, between braces |
| JsonText.LessExactlyWhen | stormpiper/stormpiper/bg_utils/util.py:12-17 | key order: a smaller character at the first difference, or a proper prefix |
| JsonText.SortedKeysAscend | stormpiper/stormpiper/bg_utils/util.py:12-17 | keys are printed once each in ascending order |
| JsonText.TextTells | stormpiper/stormpiper/bg_utils/util.py:12-17 | the printed text of a value is self-delimiting and tells the value |
| LockKey.LockTextTells | stormpiper/stormpiper/bg_utils/util.py:5-18 | for names without an opening bracket, equal text before hashing means equal name, arguments and keyword arguments, and conversely |
| LockKey.LockSpelled | stormpiper/stormpiper/bg_utils/util.py:5-18 | the key is the prefix and the digest of name, arguments and keyword arguments, in this order |
| LockKey.SameLockIffSameCall | stormpiper/stormpiper/bg_utils/singleton.py:57-81 | two calls get one lock exactly when they are the same call |
| LockKey.ReleaseFindsLock | stormpiper/stormpiper/bg_utils/singleton.py:94-97 | release regenerates the acquired key, missing and empty arguments agreeing |
| Preferences.PreferInUnit | stormpiper/stormpiper/src/decision_support/preference_functions.py:4-28 | each preference function has values in [0,1] for all thresholds |
| Preferences.PreferMonotone | stormpiper/stormpiper/src/decision_support/preference_functions.py:4-28 | and never decreases |
| Preferences.TieIsZero | stormpiper/stormpiper/src/decision_support/preference_functions.py:4-28 | exactly when it gives nothing for a tie |
| Preferences.LargeIsOne | stormpiper/stormpiper/src/decision_support/preference_functions.py:4-28 | it gives 1 beyond both thresholds |
| Preferences.BetweenThresholds | stormpiper/stormpiper/src/decision_support/preference_functions.py:4-28 | the step of the usual and the U shape, the linear law of the two V shapes, and a half for the level, between the thresholds |
| Preferences.OutsideThresholds | stormpiper/stormpiper/src/decision_support/preference_functions.py:4-28 | nothing below the thresholds and 1 above, for the other three |
| Promethee.UnicriterionFlow | stormpiper/stormpiper/src/decision_support/prom.py:62-86 | for every N of at least 2 and every chunk size, the overlapping windows sum to the plain double sum over N - 1 |
| Promethee.WindowInBounds | stormpiper/stormpiper/src/decision_support/prom.py:73-78 | a window placed at its chunk's number stays inside the array |
| Promethee.ChunksFlatten | stormpiper/stormpiper/src/decision_support/prom.py:67 | the chunks are the array, split |
| Promethee.ChunkSizes | stormpiper/stormpiper/src/decision_support/prom.py:67 | every chunk but the last has the chunk size, and the last at most that |
| Priorities.MulticriterionFlow | stormpiper/stormpiper/src/decision_support/prom.py:89-132 | plus and minus flows of every criterion, whatever the chunk size |
| Priorities.PromII | stormpiper/stormpiper/src/decision_support/prom.py:135-166 | the weighted net scores, or the assertion on negative weights |
| Priorities.FlowsAre | stormpiper/stormpiper/src/decision_support/prom.py:62-132 | the flows of a criterion from the raw matrix: sums over all pairs of the preference for the directed difference, over N - 1 |
| Priorities.ScoreIs | stormpiper/stormpiper/src/decision_support/prom.py:135-166 | a score from the raw matrix: the weighted balance of what is earned and ceded, over N - 1 and the sum of the weights |
| Priorities.BetterNeverScoresLower | stormpiper/stormpiper/src/decision_support/prom.py:22-41 | at least as good on every raw criterion, larger where the direction is positive and smaller where it is negative: never a lower score or priority |
| Priorities.BetterScoresHigher | stormpiper/stormpiper/src/decision_support/prom.py:22-41 | and a higher score where, on a criterion of some weight under the usual preference, it is strictly better |
| Priorities.ScoresSumToZero | stormpiper/stormpiper/src/decision_support/prom.py:146-166 | net scores sum to zero for any matrix, weights and preference functions |
| Priorities.FlowsInUnitIffTieEarnsNothing | stormpiper/stormpiper/src/decision_support/prom.py:62-86 | plus flows, and likewise minus flows, stay at most 1 for all columns exactly when a tie earns nothing |
| Priorities.NetInUnit | stormpiper/stormpiper/src/decision_support/prom.py:159-162 | net flows lie in [-1,1], and flows in [0,1] where a tie earns nothing |
| Priorities.NormalizedWeights | stormpiper/stormpiper/src/decision_support/util.py:43-51 | checked weights are not negative and sum to 1, or to 0 |
| Priorities.ScoreInUnit | stormpiper/stormpiper/src/decision_support/prom.py:135-166 | scores lie in [-1,1] |
| Priorities.Dominance | stormpiper/stormpiper/src/decision_support/prom.py:22-41 | an alternative at least as good on every directed criterion never gets a lower score or priority |
| Priorities.PriorityEnds | stormpiper/stormpiper/src/decision_support/util.py:54-61 | exactly the best score gets 100, exactly the worst 0 unless all tie |
| Priorities.PriorityTimes | stormpiper/stormpiper/src/decision_support/util.py:54-61 | a priority is to 100 as the score's distance from the worst is to the range of scores |
| Priorities.IncreasingKeepsScores | stormpiper/stormpiper/src/decision_support/prom.py:22-41 | with the usual preference function, strictly increasing maps of the raw criteria, maximised or minimised, change no score |
| Priorities.WeightScaleKeepsScores | stormpiper/stormpiper/src/decision_support/util.py:43-51 | neither does a positive factor on all weights |
| Priorities.FlipReversesPriorities | stormpiper/stormpiper/src/decision_support/prom.py:22-41 | flipping all directions maps a priority s to 100 - s unless all scores tie |
| Reductions.ConservedExactlyWhen | stormpiper/stormpiper/src/results.py:130-160 | whatever passes are looked up, what the passes take off a load is what its controls jointly take off exactly when the load is zero or no pass overlooks an earlier cut |
| Reductions.OverlookedIffBroken | stormpiper/stormpiper/src/results.py:139-145 | when each pass looks up the one before it, a cut is overlooked exactly when a pass without a control separates two cuts |
| Reductions.RemainingIsJoint | stormpiper/stormpiper/src/results.py:143-148 | after a cut that overlooks nothing the remaining load is the joint one |
| Reductions.GapOverdraws | stormpiper/stormpiper/src/results.py:139-145 | concrete percents with a gap that take off more than there is |
| Reductions.WrongLookupTakesMore | stormpiper/stormpiper/src/results.py:139-145 | a lookup that passes over a pass takes off too much without any gap |
| Reductions.KeptPermuted | stormpiper/stormpiper/src/results.py:146-148 | permuting percents among the passes keeps the joint reduction |
| SourceControls.CalculateSrcCtrlPercentReduction | stormpiper/stormpiper/src/results.py:118-164 | the order loop over a joined table, its assertion and its index error |
| SourceControls.AssertionFailsExactlyWhen | stormpiper/stormpiper/src/results.py:118-127 | the assertion fails exactly when two controls of one subbasin, variable and direction share an order |
| SourceControls.JoinRows | stormpiper/stormpiper/src/results.py:118-120 | the join pairs each load with the controls of its subbasin, variable and direction |
| SourceControls.PreviousIffPositional | stormpiper/stormpiper/src/results.py:134-141 | every pass looks up the one before it exactly when all orders but the last are their own positions, or the first is -1 |
| SourceControls.FailsExactlyWhen | stormpiper/stormpiper/src/results.py:129-141 | for all orders, negative ones included, the loop fails exactly when an order but the last reaches past the list of passes |
| SourceControls.FailsUnlessPositional | stormpiper/stormpiper/src/results.py:129-141 | with orders that are not negative the loop fails exactly when they are not positional, and otherwise looks up the previous pass |
| SourceControls.NegativeOrderTakesTooMuch | stormpiper/stormpiper/src/results.py:139-148 | concrete tables: orders -1, 0 and 1 of 50 percent pass on 0 of 100, where 12.5 are due |
| SourceControls.PassesOfGroup | stormpiper/stormpiper/src/results.py:130-150 | whenever the loop completes, the passes over a table are, group by group, passes over one load |
| SourceControls.JointReductionExactlyWhen | stormpiper/stormpiper/src/loading.py:250-266 | per load row, whenever the loop completes, the next stage gets the load with all controls applied exactly when it is zero or no cut is overlooked; then it lies between nothing and the load |
| SourceControls.NextInPercents | stormpiper/stormpiper/src/loading.py:250-266 | in percents: the next stage gets the load times (100 - percent) / 100 for every control of the load, exactly when it is zero or no cut is overlooked |
| SourceControls.NextOfFullGroup | stormpiper/stormpiper/src/results.py:143-148 | it always does for a load with a control at every order |
| SourceControls.NextOfOneControl | stormpiper/stormpiper/src/results.py:143-148 | and for a load with a single control, whatever other loads have |
| SourceControls.OneLoadOneControl | stormpiper/stormpiper/src/results.py:143-148 | one load, one control, all the way through: what is left is the load times (100 - percent) / 100 |
| SourceControls.OverlooksCutIffBroken | stormpiper/stormpiper/src/results.py:134-145 | with positional orders a cut of a group is overlooked exactly when a gap separates two cuts |
| SourceControls.OrderOfControlsIsImmaterial | stormpiper/stormpiper/src/loading.py:250-266 | the same percents in another order pass on the same load, where no cut is overlooked |
| SourceControls.UncontrolledLoadKept | stormpiper/stormpiper/src/loading.py:259-260 | a group without controls keeps its load whenever the loop completes |
| PresentValue.HorizonAndReplacements | stormpiper/stormpiper/src/npv.py:114-165 | H + 1 years in the horizon, one year of installation, how many replacements are charged for every install year, and what the horizon costs |
| PresentValue.ReplacementYearsHold | stormpiper/stormpiper/src/npv.py:149-159 | exactly the later years a whole number of lifespans after installation are replacement years |
| PresentValue.TotalsAgree | stormpiper/stormpiper/src/npv.py:223-269 | the last cumulative total is the reported total, capital plus operation, to the cent |
| PresentValue.CumulativeGrows | stormpiper/stormpiper/src/npv.py:232-242 | each cumulative column starts from the first year's amount and grows by each later year's own |
| PresentValue.ReportRows | stormpiper/stormpiper/src/npv.py:97-242 | every row of the report from the raw fields: its year, whether it is in the horizon, what it costs, and when capital is due |
| PresentValue.FailsIffNoSteps | stormpiper/stormpiper/src/npv.py:110-153 | a zero lifespan fails, and a missing one with a zero horizon |

## Left out

- Refresh.RefreshAllEndsClean: takes a stage as chains in parallel with a barrier after it, and each rebuild as one read-build-log step; edits that land inside a rebuild, or between the write and its log entry, are not modelled.
- Refresh.CleanResultsAreFresh: edits of single rows of `tmnt_facility_cost` and `scenario`, which are both user tables and filled by tasks, count as edits, and so does the task that enters default source controls; cost columns and earlier results in `tmnt_v` are not inputs of the solver in the model.
- Warehouse.Database.DeleteAndReplace: the source commits the log entry in a transaction of its own before the rows commit; the model has both in one step.
- FacilityAttributes.AttributeTable.UpdateTmntAttributes: subbasins that overlap, which would locate a facility twice, are not modelled; rows of facilities that are gone stay in the table, as in the code, and `tmnt_v` does not show them; default attributes count as entered data.
- ScenarioRuns.RunKeepsCoherent: takes a PATCH as one step and PATCHes that carry name, info and input only; deleting a scenario while it is solved is not modelled.
- RefreshFills.RefreshedIsFresh: takes `tmnt_v` as the join of the located columns with the present facilities; a facility counts by its `altid`, where it lies and the rest.
- Scenarios.ScenarioStore.SolveScenarioDb: the changelog entry for the scenario table, on which no result rests, is left out.
- CostEffectiveness.MaybeIncludeCostEffectiveness: a result whose removal is null, on which the comparison raises, is not modelled; a missing one counts as zero, as in the code.
- Scenarios.ScenarioData.SolveScenarioData: the failure of a solve is the one of a load without its boundary; failures inside the external solvers are not modelled.
- SingletonLock.MutualExclusion: takes every task to finish once and every lock to last; lock expiry, `clear_locks`, redelivery of a finished task and a client that dies between lock and submission are not modelled, and a submission that raises is taken not to have queued its task.
- Singletons.RedisBackend.Lock: the expiry passed to SET is left out.
- LockKey.SameLockIffSameCall: keyword names and object keys are strings; values that only `default=str` can print, lone surrogates and `unique_on`, which no task sets, are not modelled.
- Priorities.PromII: float32 rounding is not modelled, and neither are a single alternative, for which the code divides by zero, and names of preference functions that are not registered, on which it raises.
- SourceControls.CalculateSrcCtrlPercentReduction: the final sort and numbering of rows is not modelled; when no control applies at all the code returns a table without columns, which the model has as one without rows.
- PresentValue.TotalsAgree: years and lifespans are whole numbers and amounts are cents; the power-law factors and their rounding are the parameter `pv`.
- Celery, Redis and SQLAlchemy internals, the other endpoints, e-mail and authentication: plumbing around the steps modelled here.
- nereid, Earth Engine, ArcGIS and geometry: external computations, parameters here.
- Migrations, SQL views, field lists, default attribute tables and the web client: declarative or one-branch logic.
