# NORA: a verified model of its stateful core

NORA is a self-hosted dashboard that discovers containers, routes and machines, takes in
events, runs monitor checks and sends digests. Most of it is CRUD and polling. This project
models the parts where something can go wrong between operations, and proves what those
parts promise over every input, every run or every interleaving. Tables are finite maps
keyed by their conflict keys, time is an integer number of seconds, Go map iteration is an
arbitrary order, and goroutines and handlers are steps of a transition system.

`dafny verify dfyconfig.toml` checks everything.

## The modules

- **Topology** – the tree builder over `component_links`. It ends for every table exactly
  when no cycle is reachable from a root. With one parent per component it lists every
  component whose parent chain ends at a root, once, and nothing else. The handler itself
  (lookup maps, grouping passes, recursive builder) is proved to return that forest.
- **ComponentLinks** – every writer of the link table with its conflict policy, the priority
  rules between writers over arbitrary runs, and the ancestor walk with its hop cap.
- **RulesEngine** – the TTL cache under concurrent loaders and write-then-invalidate
  handlers, and the evaluation that uses it.
- **MonitorScheduler** – the one-slot wake-up channel, the reconciliation of goroutines
  against the table, and the handlers that wake it.
- **DigestPeriods**, **Calendar** – period labels, their parsing and their ranges, against
  ISO 8601 week numbering (section 4.1.4 of ISO 8601:2004).
- **Templates** – successive `ReplaceAll` under arbitrary map order.
- **EventQuery** – the two SQL WHERE builders as a compiler, with an evaluator that binds
  arguments from left to right.
- **EventRetention** – monthly rollups against nightly purges over whole runs.
- **DigestRegistry** – the reconciler of digest entries, complete, repeated and cut off.
- **DockerScan** – full scans and events against the container table, over whole runs.
- **EdgeDetectors** – per-key event detectors against a pure function of all observations.
- **RateLimit**, **JsonPath**, **ImageRef**, **ResourceRollups**, **Migrations** – as named.
- **Common**, **Strings**, **Decimal** – shared small pieces.

Classes carry the fields the Go code updates in place; their methods state the whole new
state through specification functions, and the lemmas are about those functions.

## Where the code and its comments part

- `internal/api/topology.go:140-187` has no cycle check. The table's key is
  (child_type, child_id), so a component whose type changed can carry two rows, and the
  builder then need not return (`Topology.TwoTypedLinksDiverge`).
- `internal/repo/discovery.go:209-228` deletes the app's link whatever its parent is
  (`ComponentLinks.ClearDropsForeignLink`, `ComponentLinks.UnguardedDeleteSafeIff`).
- A failed listing swallows a wake-up until the next tick, and an update that does not carry
  `enabled` writes back the value it read (`MonitorScheduler.FailedListLosesWakeUp`,
  `MonitorScheduler.StaleUpdateFlipsSilently`).
- The weekly label pairs the calendar year with the ISO week, and the Monday formula takes
  Sunday for 0: no weekly digest of 2026 covers its own UTC day
  (`DigestPeriods.WeeklyRangeContainsIff`, `DigestPeriods.NoWeekOf2026IsCovered`).
- The search is documented as a substring search; `%` and `_` in the term act as wildcards
  (`EventQuery.SearchIsSubstringIff`).
- `internal/jobs/rollup.go:12-14` calls repeated runs safe. A repeated run leaves a row as it is
  exactly if as many of its events came as went between the two queries
  (`EventRetention.RepeatedRollupIff`). Levels that expire early lose events that way
  (`EventRetention.RepeatedRollupUndercounts`). Error and critical rows change only by an event
  that was stored late, and shrink only if an overlapping run writes late
  (`EventRetention.RowsInTimeStayIff`, `EventRetention.OverlappingRuns`).
- The reconciler switches on again what a user switched off, and the `widget_` prefix does
  not keep widgets and categories apart (`DigestRegistry.SwitchedOffStaysOffIff`,
  `DigestRegistry.WidgetRowIsAWidgetIff`, `DigestRegistry.RowRemembersItsTemplate`,
  `DigestRegistry.WidgetPrefixCollides`).
- A renamed container stays running under its old name as well (`DockerScan.UnlistedRunsIff`).
- The type comment of the rate limiter says sliding window; the method comment and the code
  say fixed window. What any 60 seconds can admit is 2L-1 for calls served in the order of
  their clock readings, 3L-2 when they overtake each other by up to a minute, and L-1 more for
  every further minute; each of these is reached (`RateLimit.SlidingBound`,
  `RateLimit.LaggingBound`, `RateLimit.BoundIsAttained`).
- The cache serves rules for its TTL counted from the store, not from the read
  (`RulesEngine.SlowLoadOutlivesTTL`).
- The detectors remember what their poller object has seen, and discovery and manual scans make
  a new object for every poll: a disk that stays hot is reported in every pass, and a guest is
  never reported (`EdgeDetectors.EveryHotPassReports`, `EdgeDetectors.GuestsAreNeverReported`).
  Manual scans and discoveries of a Portainer announce every available image update again
  (`EdgeDetectors.EveryPassAnnounces`).
  Even one lasting object misses a stop by way of another status
  (`EdgeDetectors.StopIsReportedIff`).
- An hourly row misses readings stored after the query of the last run that wrote it
  (`ResourceRollups.HourIsAllIff`, `ResourceRollups.LateReadingIsMissed`). The daily rollup fires
  at midnight, when the last hour of the day need not have its row yet, and only a manual run
  comes back to that day (`ResourceRollups.DailyRunWrites`,
  `ResourceRollups.MidnightRunMissesLastHour`). Its average is a mean of hourly means
  (`ResourceRollups.MeanIsTrueIff`).
- Rule handlers read the row again after their write and return without invalidating when that
  fails; the old rules are then served for up to one TTL
  (`RulesEngine.AbandonedWriteServesStale`, `RulesEngine.StaleServiceIsBounded`).
- Labels are taken in the configured zone, ranges in UTC
  (`DigestPeriods.DailyRangeContainsIff`).

## Model

| member | source | states |
|---|---|---|
| `Topology.TerminatesIffAcyclic` | internal/api/topology.go:139-194 | for every table the recursion ends if and only if no cycle is reachable from a root, and then the number of components is depth enough |
| `Topology.BuildStable` | internal/api/topology.go:140-187 | a depth that suffices gives the node of every larger depth, so the depth bound is no bound on the result |
| `Topology.UniqueParentsAcyclic` | internal/api/topology.go:121-137 | one parent per component keeps every cycle of the table out of reach of the roots |
| `Topology.RootWalkUnique` | internal/api/topology.go:121-137 | with one parent per component, each component is reached from the roots by one walk only |
| `Topology.NodeIds` | internal/api/topology.go:140-187 | the tree built for a component holds exactly the components below it, each once |
| `Topology.ForestContents` | internal/api/topology.go:121-194 | with one parent per component the output is finite, holds no component twice, and holds a component if and only if its parent chain leads up to an existing component that is nobody's child |
| `Topology.TwoTypedLinksDiverge` | internal/repo/links.go:38-51 | a table that respects the key (child_type, child_id) but gives one component two typed rows, on which the builder never returns |
| `Topology.ChildrenOfIs` | internal/api/topology.go:121-129 | the children of a component are exactly the existing components one non-app, non-container link below it |
| `Topology.RootsOfIs` | internal/api/topology.go:131-137 | roots are exactly the components that are no such child |
| `Topology.IndexApps` | internal/api/topology.go:92-95 | the app index answers what searching the list answers, the last row of an id winning |
| `Topology.IndexComponents` | internal/api/topology.go:96-99 | the same for components |
| `Topology.GroupContainers` | internal/api/topology.go:101-105 | containers by component, in table order |
| `Topology.GroupApps` | internal/api/topology.go:107-119 | apps by parent id, links to missing apps dropped, in link order |
| `Topology.GroupChildren` | internal/api/topology.go:121-129 | component children by parent id, dangling links dropped, in link order |
| `Topology.ChildIDs` | internal/api/topology.go:131-137 | the set of non-app, non-container child ids, dangling ones included |
| `Topology.BuildNode` | internal/api/topology.go:140-187 | the recursive builder over the lookup maps returns the node the tables call for |
| `Topology.BuildChildren` | internal/api/topology.go:146-150 | the child nodes in link order |
| `Topology.ContainerLeaves` | internal/api/topology.go:152-170 | containers become leaves with the first app linked to them |
| `Topology.BuildRoots` | internal/api/topology.go:189-194 | one tree per component that is nobody's child, in table order |
| `Topology.GetTopology` | internal/api/topology.go:69-197 | whenever the recursion ends, the handler returns the forest of the tables |
| `Topology.ForestRoots` | internal/api/topology.go:131-137 | the trees of the answer are those of the components that no link other than an app or container link names as a child, in table order |
| `Topology.ForestFields` | internal/api/topology.go:171-186 | every component node of the answer shows the fields of a component of the table, a missing meta as the empty text |
| `Topology.ForestApps` | internal/api/topology.go:107-119 | every such node shows, in link order and one per link, exactly the existing apps that an app link names below it, with name and icon of the last app row of that id |
| `Topology.ForestChildren` | internal/api/topology.go:121-150 | its children are first, in link order, the nodes of the existing components that a component link names below it |
| `Topology.ForestLeaves` | internal/api/topology.go:101-105 | then, in table order, exactly the containers of its id, with their name and status |
| `Topology.ForestLeafApp` | internal/api/topology.go:163-168 | a container shows the app of the first app link below it that names an existing app, and none if there is no such link |
| `ComponentLinks.LinkStore.SetParent` | internal/repo/links.go:38-51 | the child has this parent afterwards whatever it was before, all other links as before |
| `ComponentLinks.LinkStore.RemoveParent` | internal/repo/links.go:53-61 | the child's link is gone, all others as before |
| `ComponentLinks.LinkStore.GetParent` | internal/repo/links.go:63-77 | the stored parent, or none |
| `ComponentLinks.LinkStore.LinkContainer` | internal/repo/discovery.go:130-140 | a container is hung below its component if that component exists |
| `ComponentLinks.LinkStore.SetContainerApp` | internal/repo/discovery.go:190-207 | an app link below a container replaces any other; a missing container changes nothing |
| `ComponentLinks.LinkStore.ClearContainerApp` | internal/repo/discovery.go:209-228 | clears the column and deletes the app's link whatever its parent |
| `ComponentLinks.LinkStore.LinkRoute` | internal/repo/discovery.go:407-456 | a route gets a Traefik parent only if it has none |
| `ComponentLinks.LinkStore.SyncRouteAppLink` | internal/repo/discovery.go:457-465 | the app gets the selected route as parent only if it has none; no route, no link |
| `ComponentLinks.LinkStore.SetRouteApp` | internal/repo/discovery.go:556-573 | sets the column; the link only if the app has no parent |
| `ComponentLinks.LinkStore.ClearRouteApp` | internal/repo/discovery.go:575-598 | clears the column and deletes the link only if this route is its parent |
| `ComponentLinks.LinkStore.CreateCheck` | internal/repo/checks.go:69-96 | inserts the check and links its app if that has no parent |
| `ComponentLinks.LinkStore.UpdateCheck` | internal/repo/checks.go:110-148 | drops the links below this monitor, then links the app if it has no parent |
| `ComponentLinks.LinkStore.UpsertCheckForComponent` | internal/repo/checks.go:220-251 | an existing row keeps its app, the link uses the new one if it has no parent |
| `ComponentLinks.RouteAndMonitorStatements` | internal/repo/checks.go:137-146 | the statements of the route and monitor writers are those the run theorems speak of |
| `ComponentLinks.StatementFrame` | internal/repo/discovery.go:556-598 | a statement touches only the child it names, or the children of the parent it names |
| `ComponentLinks.ParentSurvives` | internal/repo/checks.go:137-146 | over any interleaving of route and monitor writers a child keeps its parent until a statement of that very route or monitor releases it |
| `ComponentLinks.ForeignParentSurvives` | internal/repo/discovery.go:457-465 | a container or component parent outlives every run of route and monitor writers |
| `ComponentLinks.ChangeNeedsRelease` | internal/repo/discovery.go:575-598 | in such a run a link changes only after its old parent released it |
| `ComponentLinks.ClearDropsForeignLink` | internal/repo/discovery.go:209-228 | two containers carry one app; clearing the first deletes the link to the second |
| `ComponentLinks.UnguardedDeleteSafeIff` | internal/repo/discovery.go:222-226 | that delete does what a guarded one would if and only if the app has no link or hangs below that container |
| `ComponentLinks.LinkStore.GetChain` | internal/api/apps.go:126-156 | the walk from the app up its parents, at most ten hops, stopped at the first missing parent or below Traefik, and the Traefik component it stopped below |
| `ComponentLinks.LinkStore.Walk` | internal/api/apps.go:131-156 | the same for any cap |
| `ComponentLinks.ChainIsExact` | internal/api/apps.go:126-156 | at most cap + 1 nodes joined by parent links, none of Traefik; equal to the full ancestor path whenever that exists and has at most cap hops, otherwise exactly cap hops |
| `ComponentLinks.CyclicChainIsCut` | internal/api/apps.go:126-133 | an ancestor path that returns to a node is cut at the cap |
| `RulesEngine.EvaluateConditions` | internal/rules/matcher.go:13-28 | AND: all conditions hold; OR: some does; none given: the rule fires |
| `RulesEngine.FiresIff` | internal/rules/engine.go:94-127 | a rule fires if and only if each gate it sets names the event's source, source type (docker for docker_engine, monitor for monitor_check) or level, its conditions parse, and they all hold under AND, one holds under OR, or there are none |
| `RulesEngine.FiringIs` | internal/rules/engine.go:42-66 | an evaluation fires exactly these of the served rules, in their order |
| `RulesEngine.EnabledIs` | internal/rules/engine.go:76-92 | the rules served are the enabled ones, in table order |
| `RulesEngine.Engine.InvalidateCache` | internal/rules/engine.go:69-74 | the cache holds nothing live afterwards |
| `RulesEngine.Engine.EnabledRules` | internal/rules/engine.go:77-92 | before its expiry the cache answers; otherwise the listing does and is stored for 30 seconds, and a failed listing changes nothing |
| `RulesEngine.Engine.Evaluate` | internal/rules/engine.go:42-67 | fires exactly the served rules that pass the gate, parse and hold, in order |
| `RulesEngine.CoherentStep` | internal/api/rules.go:239-244 | no step of loaders, writers, clock or invalidation breaks coherence, a handler that returns after its write without invalidating included |
| `RulesEngine.CacheCoherence` | internal/rules/engine.go:69-92 | in every reachable state a live cache, or a loader's answer, that differs from the enabled rules implies a handler between its write and its invalidation, or one that gave up in between since these rules were read |
| `RulesEngine.ServedRulesAreCurrent` | internal/api/rules.go:291-296 | with no such handler, in flight or given up, an evaluation fires exactly what the current rules fire |
| `RulesEngine.EveryCacheHasALoad` | internal/rules/engine.go:84-91 | every live cache content goes back to one read and one store with nothing between them that changed the answer |
| `RulesEngine.StalenessBound` | internal/rules/engine.go:77-92 | a hit is younger than the TTL counted from its store, so an atomic load is never served 30 s or more after its read |
| `RulesEngine.SlowLoadOutlivesTTL` | internal/rules/engine.go:84-91 | counted from the read there is no bound: a run in which a slow load is served its delay plus almost the TTL later |
| `RulesEngine.CacheBehindHasACause` | internal/repo/rules.go:80-122 | a cache left behind means a handler whose re-read failed after its write, no invalidation since, and only loads stored since that were already in hand |
| `RulesEngine.LoadBehindHasACause` | internal/repo/rules.go:80-122 | the same for rules in a loader's hand |
| `RulesEngine.StaleServiceIsBounded` | internal/api/rules.go:333-338 | stale rules with no handler in flight are served for less than the TTL after the handler gave up, or after the store of a load that was in hand then |
| `RulesEngine.AbandonedWriteServesStale` | internal/api/rules.go:239-244 | a run in which a rule is written, its re-read fails and the old rules are served until just before the TTL ends |
| `MonitorScheduler.SyncReconciles` | internal/monitor/scheduler.go:93-130 | a sync leaves exactly the enabled ids active with one uncancelled goroutine each; running ones keep goroutine and row, new ones run their listed row, all others are cancelled |
| `MonitorScheduler.StartMissingIs` | internal/monitor/scheduler.go:102-118 | the start loop adds goroutines for enabled checks that have none and disturbs no other |
| `MonitorScheduler.CancelExceptIs` | internal/monitor/scheduler.go:120-126 | cancelling keeps table and goroutines one to one |
| `MonitorScheduler.Scheduler.TriggerSync` | internal/monitor/scheduler.go:49-57 | a token is queued afterwards, nothing else changes |
| `MonitorScheduler.Scheduler.SyncChecks` | internal/monitor/scheduler.go:93-130 | the two loops compute the specified pool; a failed listing changes nothing |
| `MonitorScheduler.Scheduler.Prune` | internal/monitor/scheduler.go:120-126 | cancels and forgets exactly the checks outside the given set, in any order |
| `MonitorScheduler.Scheduler.CancelAll` | internal/monitor/scheduler.go:133-140 | no goroutine is left uncancelled and none is active |
| `MonitorScheduler.InvStep` | internal/api/checks.go:297-307 | every step of handlers, loop, table writers and goroutines keeps the invariant |
| `MonitorScheduler.NoLostWakeUp` | internal/monitor/scheduler.go:49-88 | in every reachable state a check whose enabled state differs from the last successful listing implies a token, a handler about to trigger or a woken loop, unless a silent change or a failed listing came since |
| `MonitorScheduler.LostHasACause` | internal/monitor/scheduler.go:93-97 | the second exception means a failed listing with no successful one after it |
| `MonitorScheduler.SilentHasACause` | internal/api/checks.go:220-307 | the first exception means an insert, delete or flagless update of that check since the last listing |
| `MonitorScheduler.RunningLoopsMatchTable` | internal/monitor/scheduler.go:93-130 | at rest the uncancelled goroutines are exactly the enabled checks, one each |
| `MonitorScheduler.FailedListLosesWakeUp` | internal/monitor/scheduler.go:78-81 | a run in which a check disabled through the API keeps running with nothing due |
| `MonitorScheduler.StaleUpdateFlipsSilently` | internal/api/checks.go:220-307 | a run of two overlapping updates that ends with an enabled check, no goroutine and nothing due |
| `Calendar.IsoWeekIs` | internal/jobs/digest.go:1108-1109 | year and week counted by the Thursday agree with numbering weeks from the one of 4 January, between 1 and 53 |
| `Calendar.WeeksInYear` | internal/jobs/digest.go:1040-1042 | an ISO year has 52 or 53 weeks and starts within three days of 1 January |
| `Calendar.MonthStep` | internal/jobs/digest.go:1047-1050 | each month ends where the next begins |
| `Calendar.MonthLengths` | internal/jobs/digest.go:1032-1051 | the Gregorian month lengths |
| `Calendar.DaysCount` | internal/jobs/digest.go:1032-1051 | days follow one another within a month |
| `Calendar.EpochIsThursday` | internal/jobs/digest.go:1040-1044 | the Unix epoch is a Thursday, and weekdays follow one another with Sunday as 0 |
| `DigestPeriods.DailyLabelReadsBack` | internal/jobs/digest.go:1032-1037 | a daily label parses back to its date |
| `DigestPeriods.MonthlyLabelReadsBack` | internal/jobs/digest.go:1103-1113 | a monthly label parses back to its month and is taken for neither a day nor a week |
| `DigestPeriods.WeeklyLabelReadsBack` | internal/jobs/digest.go:1103-1113 | a weekly label scans back to calendar year and ISO week, for every year, and is not taken for a day |
| `DigestPeriods.LabelForms` | internal/jobs/digest.go:1103-1113 | labels are the year in four digits, month and day in two, with dashes between; the weekly one is the calendar year, -W and the ISO week in two digits |
| `DigestPeriods.UnreadableIsThisMonth` | internal/jobs/digest.go:1052-1055 | a period that no layout fits means the current month |
| `DigestPeriods.DailyRangeContains` | internal/jobs/digest.go:1033-1037 | for labels taken in UTC the daily range is that day and contains the instant |
| `DigestPeriods.MonthlyRangesTile` | internal/jobs/digest.go:1047-1051 | for labels taken in UTC the monthly range contains the instant, and it ends where the next month's begins |
| `DigestPeriods.WeekRangeIs` | internal/jobs/digest.go:1040-1044 | the range starts on the ISO week's Monday, or a week late when 4 January is a Sunday |
| `DigestPeriods.WrongYearMisses` | internal/jobs/digest.go:1103-1109 | where calendar and ISO year differ the range lies elsewhere |
| `DigestPeriods.WeeklyRangeContainsIff` | internal/jobs/digest.go:1032-1113 | for labels taken in UTC the weekly range contains its instant if and only if its ISO year is its calendar year and 4 January of that year is no Sunday |
| `DigestPeriods.NoWeekOf2026IsCovered` | internal/jobs/digest.go:1032-1113 | so no weekly range of 2026 contains the UTC day of its label |
| `DigestPeriods.DailyRangeContainsIff` | internal/jobs/digest.go:205-214 | for a label of any zone the daily range contains the instant if and only if the local date is the UTC date |
| `DigestPeriods.MonthlyRangeContainsIff` | internal/jobs/digest.go:205-214 | the monthly range, if and only if it is the same month in UTC |
| `DigestPeriods.WeeklyZonedRangeContainsIff` | internal/jobs/digest.go:205-214 | the weekly range, if and only if the label has the right year and the UTC date lies in the local date's week, or in the next one when 4 January is a Sunday |
| `Templates.ReplaceOne` | internal/ingest/pipeline.go:248-250 | replacing one token in the text is substituting it in the parts, and leaves a template |
| `Templates.ReplaceEachIsSubstitution` | internal/ingest/pipeline.go:247-250 | successive replacements amount to one simultaneous substitution |
| `Templates.Confluence` | internal/rules/matcher.go:80-103 | every order of the same fields gives the same text |
| `Templates.ParseShows` | internal/ingest/pipeline.go:243-260 | every text is the text of its parts |
| `Templates.BraceMeansUnresolved` | internal/ingest/pipeline.go:252-258 | a brace is left if and only if some token has no field |
| `Templates.OrderShowsInGeneral` | internal/ingest/pipeline.go:247-250 | without the brace condition the order shows: a value that spells a token is or is not replaced in turn |
| `Templates.OrderShowsIff` | internal/ingest/pipeline.go:247-250 | for any two fields and values, on the template that is the first field's token: both orders agree if and only if the first value does not hold the second token, or that token stands for itself |
| `Templates.ReplaceKeepsIff` | internal/ingest/pipeline.go:247-250 | a replacement leaves a text alone if and only if the token does not occur or is replaced by itself |
| `Templates.IngestOutcome` | internal/ingest/pipeline.go:243-260 | the title holds no brace, and is the fallback exactly when a brace is left |
| `Templates.ReplaceFields` | internal/ingest/pipeline.go:247-250 | the loop applies one replacement per field in some order of the map |
| `Templates.RenderIngest` | internal/ingest/pipeline.go:243-260 | for clean fields the title is independent of the map order and is the event type or "Event received" exactly when some token has no field; a title with an opening brace is an event type |
| `Templates.OneTokenRendered` | internal/ingest/pipeline.go:243-260 | one token in plain text becomes its field's value, and text without braces stays as it is |
| `Templates.RenderNotification` | internal/rules/matcher.go:80-103 | the text is one simultaneous substitution in which the built-in tokens win over payload keys |
| `EventQuery.ListPartsMean` | internal/repo/events.go:131-183 | compiling a list filter preserves its meaning: every condition reads as the filter's field, empty fields ignored, the type list overriding the single type |
| `EventQuery.CategoryPartsMean` | internal/repo/events.go:256-297 | the same for category filters |
| `EventQuery.ClauseReads` | internal/repo/events.go:179-182 | a joined clause accepts a row exactly when all conditions do, with one argument per hole |
| `EventQuery.ListReads` | internal/repo/events.go:139-145 | an IN list with its own holes reads as membership |
| `EventQuery.CellIs` | internal/repo/events.go:131-183 | each column of the clause reads the event's field of that name, a payload path what is found there |
| `EventQuery.BuildWhere` | internal/repo/events.go:131-183 | holes and arguments are equal in number; bound left to right the clause accepts exactly the events the filter asks for, field by field and with bounds in whole seconds; it is empty exactly for the empty filter |
| `EventQuery.BuildCategoryWhere` | internal/repo/events.go:256-297 | the same for the category builder: one argument per hole, acceptance as the filter means it with a payload path read as what json_extract finds there, empty exactly when no condition is asked for |
| `EventQuery.PlainSearch` | internal/repo/events.go:156-159 | a term without wildcards finds exactly the texts that contain it, letter case aside |
| `EventQuery.SearchIsSubstringIff` | internal/repo/events.go:25-28 | the search is the documented substring search if and only if the term holds no LIKE wildcard |
| `EventRetention.EventStore.DeleteByLevelBefore` | internal/repo/events.go:309-318 | exactly the older events of that level are gone |
| `EventRetention.EventStore.RunEventRetention` | internal/jobs/retention.go:27-51 | exactly the events past their level's window of 1, 7, 30 or 90 days are gone, in any order of levels |
| `EventRetention.EventStore.RunMonthlyRollup` | internal/jobs/rollup.go:15-54 | for every listed app, event type and level the row of the calendar month before now holds the number of stored events whose UTC date lies in that month; groups without events and all other rows stay as they were |
| `EventRetention.EventStore.UpsertAll` | internal/repo/rollups.go:28-37 | rows are inserted or replaced one at a time |
| `EventRetention.FreshIs` | internal/repo/events.go:320-344 | a key is among the groups if and only if some event counts for it, with its count |
| `EventRetention.CountsIff` | internal/repo/events.go:320-344 | an event counts for a row if and only if it is the app's, of that type and level, and was stamped on a day of the month |
| `EventRetention.StampedOn` | internal/jobs/rollup.go:16-22 | the date of the stamp decides which month that is |
| `EventRetention.CountIs` | internal/repo/events.go:320-344 | the count of a row, here and over runs, is the number of those events |
| `EventRetention.NothingPurgedYet` | internal/jobs/retention.go:12-51 | as long as the window of a level reaches back to the beginning of a month, no event of that level and month has been purged |
| `EventRetention.FollowingMonthIsInTime` | internal/jobs/rollup.go:56-58 | for error and critical the window reaches back to the beginning of the month during the whole following month: two months last at most 62 days |
| `EventRetention.InvStep` | internal/jobs/rollup.go:15-54 | storing (with an earlier stamp or not), whole and partial purges, the statements of any number of rollups and the clock keep every event that has not passed its window |
| `EventRetention.QueryIs` | internal/jobs/rollup.go:31-46 | over whole runs the rows a rollup has in hand are the counts its last query found in store |
| `EventRetention.RowIsOfLastWrite` | internal/jobs/rollup.go:31-46 | over whole runs every row holds the number of events that the query behind its last write found, and there is no row without a write |
| `EventRetention.NoRowIsLeftOut` | internal/jobs/rollup.go:31-46 | a rollup that queried an app and has a row it found no longer in hand has written it |
| `EventRetention.CreatedGrows` | internal/ingest/pipeline.go:101-103 | a month's events grow, and are the same at two points of a run if and only if none was stored in between |
| `EventRetention.RollupIsExactIff` | internal/jobs/rollup.go:12-54 | over whole runs, a row of any level that was queried in time is the true one if and only if, when there is an event to count, it has been written and none was stored after the query behind it |
| `EventRetention.RollupIsExact` | internal/jobs/rollup.go:15-54 | in every run, a rollup that queried an app in the following month leaves, once it has written what it found, exactly the true error and critical rows, none where there were no events, unless an event was stored after the query or a run that queried before wrote after |
| `EventRetention.RowsInTimeStayIff` | internal/jobs/rollup.go:12-54 | over whole runs, for queries made while the window of the level reaches back to the beginning of the month (for error and critical the whole following month): a row is unchanged if and only if no event it counts was stored between the two queries, and it shrinks only if the later write is of the earlier query |
| `EventRetention.RepeatIsSafeIff` | internal/jobs/rollup.go:12-54 | a rollup repeated over what is left of the events writes the same row if and only if all the events it counted are still there or none is |
| `EventRetention.RepeatAfterPurgeIff` | internal/jobs/retention.go:12-51 | after a purge: if and only if none of the counted events has passed its window or all have |
| `EventRetention.RepeatedRollupIff` | internal/jobs/rollup.go:12-54 | over whole runs, for a row of any level at any two points: it is unchanged if and only if, between the queries behind its last writes, as many of the month's events came into store as went |
| `EventRetention.RepeatedRollupUndercounts` | internal/jobs/rollup.go:12-54 | an input on the wrong side of that condition: for debug events a repeated rollup after the nightly purge overwrites the row with a lower count |
| `EventRetention.OverlappingRuns` | internal/ingest/pipeline.go:101-103 | two overlapping rollups and an event stored between their queries: the row rises if the later query is written last, and shrinks if the earlier one is |
| `DigestRegistry.Slugify` | internal/profile/registry_reconciler.go:20-27 | a slug holds only a-z, 0-9 and underscore |
| `DigestRegistry.SlugOfSlug` | internal/profile/registry_reconciler.go:20-27 | a slug is its own slug |
| `DigestRegistry.SlugOfConcat` | internal/profile/registry_reconciler.go:20-27 | each character contributes on its own |
| `DigestRegistry.SlugOfChar` | internal/profile/registry_reconciler.go:20-27 | letters contribute their lower case, digits and underscores themselves, a blank an underscore, everything else nothing |
| `DigestRegistry.CategoryEntriesAre` | internal/profile/registry_reconciler.go:58-94 | each category with a slug makes one entry of that name, in order; without a source it is a webhook's |
| `DigestRegistry.WidgetEntriesAre` | internal/profile/registry_reconciler.go:96-127 | each widget with a slug makes one under the prefixed name, with its own source |
| `DigestRegistry.Registry.Upsert` | internal/repo/digest_registry.go:33-51 | inserts, or updates label, config, profile source, active flag and time stamp only; a refused source or a failed write changes nothing |
| `DigestRegistry.Registry.SetActive` | internal/repo/digest_registry.go:54-68 | only flag and time stamp of that row change |
| `DigestRegistry.Registry.UpsertCategories` | internal/profile/registry_reconciler.go:58-94 | after the loop, or where it stopped, exactly a prefix of the entries has been applied to the profile's rows |
| `DigestRegistry.Registry.UpsertWidgets` | internal/profile/registry_reconciler.go:96-127 | the same for widgets |
| `DigestRegistry.Registry.Deactivate` | internal/profile/registry_reconciler.go:134-161 | each listed row is switched off or untouched, all of them when no write fails |
| `DigestRegistry.Registry.ReconcileProfile` | internal/profile/registry_reconciler.go:47-142 | the profile's rows become what their entries call for, or what a prefix of them does when a write or the listing fails; rows of other profiles stay |
| `DigestRegistry.Registry.Reconcile` | internal/profile/registry_reconciler.go:43-164 | for every order of profiles a complete run takes every row to its declarative value; a failed one leaves each row old, new or part-way, and only a failed write, a failed listing or a refused source makes it fail |
| `DigestRegistry.ActiveIffDeclared` | internal/profile/registry_reconciler.go:43-164 | active if and only if declared, for loaded profiles with entries; rows of unloaded profiles inactive; profiles without entries untouched |
| `DigestRegistry.UndeclaredIsSwitchedOff` | internal/profile/registry_reconciler.go:129-161 | an active row that nothing declares any more is switched off and stamped, and nothing else of it changes |
| `DigestRegistry.RowsKeepIdentity` | internal/repo/digest_registry.go:33-51 | no row is deleted or changes id, source, entry type or creation time |
| `DigestRegistry.SwitchedOffStaysOffIff` | internal/profile/registry_reconciler.go:79-92 | a row switched off by hand stays untouched if and only if the template does not declare it |
| `DigestRegistry.Idempotent` | internal/profile/registry_reconciler.go:43-164 | a second run changes nothing but time stamps |
| `DigestRegistry.AbortedThenComplete` | internal/profile/registry_reconciler.go:43-164 | a run cut off at any write and then a complete one reach what the complete one alone reaches, up to new ids and time stamps |
| `DigestRegistry.EntriesKeepIdentity` | internal/repo/digest_registry.go:33-51 | upserting entries keeps the identity of an existing row |
| `DigestRegistry.InsertedAsFirst` | internal/profile/registry_reconciler.go:62-127 | the first entry of a name decides source and type of an inserted row, which gets the run's id and time |
| `DigestRegistry.ContentIsTheTemplates` | internal/profile/registry_reconciler.go:62-127 | the last entry of a name decides label and config, and the row is active, whatever it was before |
| `DigestRegistry.WidgetRowIsAWidgetIff` | internal/profile/registry_reconciler.go:97-101 | in any template the row of a declared widget is a widget's row if and only if it was one before or, when it is inserted, no category's label has the widget's name for a slug |
| `DigestRegistry.RowRemembersItsTemplate` | internal/repo/digest_registry.go:33-51 | a row that one template inserted and the next one declares as a widget is a widget's row if and only if no category of the first template had its name |
| `DigestRegistry.WidgetPrefixCollides` | internal/profile/registry_reconciler.go:97-101 | when one does, the shared row is a category's with the widget's label and config |
| `DockerScan.ContainerStore.UpsertDiscoveredContainer` | internal/repo/discovery.go:95-129 | a known engine and name keeps UUID, app, restart policy and creation time, takes id, image, status and suggestion from the sighting and metadata where the sighting has any; an unknown one is inserted; a refused write changes nothing |
| `DockerScan.ContainerStore.MarkStoppedIfNotRunning` | internal/repo/discovery.go:244-275 | exactly the engine's running rows whose Docker id is not listed stop |
| `DockerScan.ContainerStore.ScanAll` | internal/infra/docker_discovery.go:110-145 | every row becomes what the listing and the accepted writes call for; a failed listing and other engines change nothing |
| `DockerScan.ContainerStore.HandleEvent` | internal/infra/docker_discovery.go:150-199 | the row of the engine and name has exactly the event's id, image and status afterwards, and keeps UUID, app and all metadata it had |
| `DockerScan.ContainerStore.SetDiscoveredContainerApp` | internal/repo/discovery.go:190-218 | sets or clears the app of the row with that UUID, and of no other |
| `DockerScan.ScanPreserves` | internal/repo/discovery.go:104-121 | whatever fails, a scan keeps every row with UUID, app link, creation time, restart policy and non-null metadata |
| `DockerScan.RunningIsListed` | internal/infra/docker_discovery.go:133-137 | once the mark went through every running row of the engine carries a listed id, even if upserts failed |
| `DockerScan.ListedIsRunning` | internal/infra/docker_discovery.go:122-137 | a listed container whose upsert went through and whose name no later one takes over has a running row under its name with its Docker id and fresh metadata, the old row kept across rebuilds |
| `DockerScan.UnlistedRunsIff` | internal/repo/discovery.go:244-275 | a row whose name is not listed runs afterwards if and only if it ran before under a listed Docker id |
| `DockerScan.RescanIsStable` | internal/infra/docker_discovery.go:110-145 | a second scan of an unchanged engine changes only the time last seen |
| `DockerScan.ScannedTableIs` | internal/infra/docker_discovery.go:110-145 | the table after a scan, as used in runs, is row by row what the scan calls for |
| `DockerScan.AppLinkIsTheUsersChoice` | internal/infra/docker_discovery.go:161-199 | over any run of scans, events, user choices and deletions a row stays until it is deleted as one; until then it keeps its UUID and carries exactly the app the user chose last |
| `DockerScan.LostRowsWereDeleted` | internal/repo/discovery.go:345-383 | a row that is gone was deleted by the user or by the cleanup of stopped rows |
| `DockerScan.DeletedIsGone` | internal/repo/discovery.go:330-420 | a step deletes the row if and only if the row is gone after it |
| `DockerScan.ScanSpeaks` | internal/infra/docker_discovery.go:110-143 | a scan sets the status of a row to running if it lists the name, to stopped if it marks it, and otherwise leaves status and Docker id alone |
| `DockerScan.StatusIsTheLastSaid` | internal/infra/docker_discovery.go:110-154 | over whole runs a row has the status of the last event for its name or of the last scan that listed or marked it, whichever came last |
| `DockerScan.ContainerStore.DeleteDiscoveredContainer` | internal/repo/discovery.go:345-356 | exactly the row with that UUID goes |
| `DockerScan.ContainerStore.DeleteAllStoppedContainers` | internal/repo/discovery.go:375-383 | exactly the rows not running go |
| `EdgeDetectors.KeysAreIndependent` | internal/infra/synology.go:677-704 | over any mixed history the events of a key are those at its own adjacent pairs, in order |
| `EdgeDetectors.VolumeReports` | internal/infra/synology.go:677-704 | over any trace a volume is reported as an error each time it enters crashed, as a warning each time it enters degraded |
| `EdgeDetectors.DiskReports` | internal/infra/synology.go:737-764 | a disk as an error each time it enters critical, as a warning each time it enters warning |
| `EdgeDetectors.TempReports` | internal/infra/synology.go:766-788 | a hot disk each time it gets above 55 degrees |
| `EdgeDetectors.VersionReports` | internal/infra/synology.go:793-836 | a DSM version each time it is entered, nothing available never |
| `EdgeDetectors.GuestReports` | internal/infra/proxmox.go:484-500 | a guest stopped each time stopped directly follows running, started each time it is the other way round |
| `EdgeDetectors.ImageReports` | internal/infra/portainer_enrichment.go:214-223 | an image each time its flag turns true |
| `EdgeDetectors.SynologyPoller.FetchVolumes` | internal/infra/synology.go:677-704 | over every sequence of polls the stored state reads as the last observation and the events are the edges of all observations |
| `EdgeDetectors.SynologyPoller.FetchDisks` | internal/infra/synology.go:729-791 | the same for disk status and temperature, independently; degraded means some disk is critical |
| `EdgeDetectors.SynologyPoller.CheckStatus` | internal/infra/synology.go:737-764 | one disk status observation |
| `EdgeDetectors.SynologyPoller.CheckTemp` | internal/infra/synology.go:766-788 | one temperature observation |
| `EdgeDetectors.SynologyPoller.FetchUpdates` | internal/infra/synology.go:793-836 | a version is announced when it differs from the last one announced; nothing available resets it; an available update without version is ignored |
| `EdgeDetectors.ProxmoxPoller.CheckStateChanges` | internal/infra/proxmox.go:475-519 | for one poller object: events exactly at running and stopped seen one directly after the other |
| `EdgeDetectors.EnrichmentWorker.CheckImageUpdate` | internal/infra/portainer_enrichment.go:214-223 | for one worker object: an event exactly where the flag turns true |
| `EdgeDetectors.OneEventPerHotSpell` | internal/infra/synology.go:766-788 | a disk that gets hot makes one event however long it stays hot, as long as one poller object sees the whole spell |
| `EdgeDetectors.CoolingIsSilent` | internal/infra/synology.go:786-788 | readings at or below 55 make none |
| `EdgeDetectors.StopIsReportedIff` | internal/infra/proxmox.go:491-495 | one poller object reports a guest stopped after running if and only if it saw no other status in between |
| `EdgeDetectors.GuestEventsAlternate` | internal/infra/proxmox.go:484-500 | for a guest one poller object only ever sees running or stopped the events alternate, the last one naming its present state |
| `EdgeDetectors.DiscoverSynology` | internal/scanner/discovery/synology.go:47-53 | a discovery pass, with a poller of its own, creates the events of that poll alone |
| `EdgeDetectors.ScanProxmox` | internal/jobs/scan.go:37-45 | a manual scan, with a poller of its own, creates no guest event unless one guest is listed twice |
| `EdgeDetectors.FirstSightIsSilent` | internal/infra/proxmox.go:484-488 | a poller that sees each guest once reports none |
| `EdgeDetectors.FreshPollersForget` | internal/jobs/scan.go:53-58 | over passes that each make a poller every observation counts as the first, whatever the rule |
| `EdgeDetectors.EveryHotPassReports` | internal/scanner/discovery/synology.go:47-53 | a disk that stays hot makes one event in every pass |
| `EdgeDetectors.GuestsAreNeverReported` | internal/jobs/scan.go:37-45 | no sequence of passes ever reports a guest |
| `EdgeDetectors.FreshPollersAgreeIff` | internal/infra/synology.go:766-788 | passes report what one lasting poller would if and only if the disk never stays hot from one reading to the next |
| `EdgeDetectors.RunPortainer` | internal/jobs/scan.go:88-91 | a manual scan, with a worker of its own, announces exactly the images it sees with an update |
| `EdgeDetectors.EveryPassAnnounces` | internal/jobs/discover.go:32-38 | over passes that each make a worker, an image is announced at least once in every pass that sees it with an update, and exactly once where it is listed once |
| `EdgeDetectors.FreshWorkersAgreeIff` | cmd/nora/main.go:274-279 | such passes announce what the lasting worker would if and only if no update is seen twice in a row |
| `RateLimit.RateLimiter.Allow` | internal/ingest/ratelimit.go:29-44 | opens a window or counts in the open one of 60 seconds, for this app only, and admits while the count is within the limit, 100 if it is not positive |
| `RateLimit.AppsAreIndependent` | internal/ingest/ratelimit.go:37-43 | what an app is answered depends on its own calls only |
| `RateLimit.OpenWindowAdmits` | internal/ingest/ratelimit.go:42-43 | of the calls in an open window exactly the first that fit are admitted |
| `RateLimit.WindowAdmitsTheFirst` | internal/ingest/ratelimit.go:37-43 | each window admits exactly min(calls, L), the first ones |
| `RateLimit.SlidingBound` | internal/ingest/ratelimit.go:26-44 | for calls served in the order of their clock readings at most 2L-1 |
| `RateLimit.LaggingBound` | internal/ingest/ratelimit.go:33-35 | for calls that overtake each other by up to any lag, the clock being read before the lock, any half-open 60 s interval admits at most 2L-1 calls of an app up to a lag of one nanosecond, 3L-2 up to a lag of 60 s, and L-1 more for every further 60 s, whatever other apps do |
| `RateLimit.BoundIsAttained` | internal/ingest/ratelimit.go:26-44 | for every limit, lag and interval a sequence of calls reaches that bound |
| `JsonPath.MatchIndexIff` | internal/ingest/pipeline.go:22-23 | a segment is an indexed one exactly if it is a key that is not empty and digits in brackets |
| `JsonPath.PrintedStepSelects` | internal/ingest/pipeline.go:165-192 | a printed step selects what the step selects, index print and parse included |
| `JsonPath.GetIsWalk` | internal/ingest/pipeline.go:153-197 | evaluating a printed list of steps gives what walking the tree gives |
| `JsonPath.RootedGetIsWalk` | internal/ingest/pipeline.go:153-158 | with or without `$` or `$.` in front |
| `JsonPath.GetField` | internal/ingest/pipeline.go:153-215 | a key finds its field and a key with an index the element of that position; a text is its own text, null the empty one, anything else its JSON |
| `JsonPath.ExtractFields` | internal/ingest/pipeline.go:132-149 | exactly the mapped paths that have a value, for every map order; a body that does not decode gives none |
| `ImageRef.ParseIsWellFormed` | internal/infra/docker_registry.go:82-115 | every text parses to a host, a repository and a tag that can be told apart again |
| `ImageRef.ParseCanonical` | internal/infra/docker_registry.go:82-115 | parsing undoes spelling for every such reference |
| `ImageRef.CanonicalForm` | internal/infra/docker_registry.go:82-115 | for every text, parsing the full spelling of its parse gives the same parse |
| `ImageRef.ParseDefaults` | internal/infra/docker_registry.go:82-115 | without a host the registry is docker.io, without host and user the repository is under library/, without a tag it is latest; a host contains a dot or a colon or is localhost |
| `ImageRef.BaseNameOfRepo` | internal/infra/docker_matcher.go:75-90 | the base name is the last path segment of the parsed repository |
| `ImageRef.BaseNameOfCanonical` | internal/infra/docker_matcher.go:75-90 | and does not depend on the spelling |
| `ImageRef.LastSegmentIs` | internal/infra/docker_matcher.go:75-90 | a base name is what follows the last slash |
| `ImageRef.ConfidenceIs` | internal/infra/docker_matcher.go:24-71 | 95 for the name, 85 for the image's base name, 80 for a name that contains the profile, 70 for a base name that does, in this order |
| `ImageRef.MatchContainerToProfile` | internal/infra/docker_matcher.go:24-71 | no match exactly when no profile has positive confidence, otherwise a profile of the highest confidence |
| `ImageRef.MatchIsStable` | internal/infra/docker_matcher.go:24-71 | the confidence is the same for every profile order and for the canonical spelling |
| `ResourceRollups.StatsMean` | internal/repo/resource_rollups.go:51-66 | the aggregate's extremes are the true extremes of the group's rows, and it is absent exactly without rows |
| `ResourceRollups.WindowsMerge` | internal/repo/resource_rollups.go:51-66 | adjacent windows add up |
| `ResourceRollups.StatsAddUp` | internal/repo/resource_rollups.go:51-66 | count and sum are taken over exactly the group's readings of the window, each once |
| `ResourceRollups.HourRowShows` | internal/repo/resource_rollups.go:51-66 | an hourly row holds mean, minimum and maximum of exactly the group's readings of its 3600 seconds, and is there exactly if there are any |
| `ResourceRollups.DayRowShows` | internal/repo/resource_rollups.go:68-83 | a daily row holds the unweighted mean of the averages, the least minimum and the greatest maximum of exactly the group's hourly rows of its 86400 seconds |
| `ResourceRollups.AggregateReadingsIs` | internal/repo/resource_rollups.go:51-66 | the hourly query finds exactly the groups with a reading in those seconds |
| `ResourceRollups.AggregateHourlyRollupsIs` | internal/repo/resource_rollups.go:68-83 | the daily query exactly those with an hourly row in that day |
| `ResourceRollups.HoursKnowTheExtremes` | internal/repo/resource_rollups.go:68-83 | whatever hours have their row, the hourly rows have the extremes of the raw readings of these hours |
| `ResourceRollups.EvenHoursAddUp` | internal/repo/resource_rollups.go:68-83 | with these hours evenly sampled the sums and counts agree as well |
| `ResourceRollups.DailyRowOver` | internal/jobs/resource_rollup.go:14-47 | whatever hours have their row: the daily row is there exactly when one has, and holds the true minimum and maximum of their readings, min <= avg <= max, and their true mean when they are sampled alike |
| `ResourceRollups.SeenIsAllIff` | internal/repo/resource_rollups.go:68-83 | what the hourly rows of a window show is all its readings if and only if each of them shows all of its hour |
| `ResourceRollups.MeanIsTrueIff` | internal/repo/resource_rollups.go:68-83 | the daily average is the true mean of the readings it covers if and only if the sum over the hours of (hours * count - total) * mean is zero |
| `ResourceRollups.TwoHourMeanIff` | internal/repo/resource_rollups.go:68-83 | for two hours: if and only if the counts or the means are equal |
| `ResourceRollups.RollupStore.UpsertAll` | internal/jobs/resource_rollup.go:26-44 | in any order of groups each row of the period holds one of the aggregates that feed its key, all other rows stay |
| `ResourceRollups.RollupStore.RunHourlyRollup` | internal/scanner/discovery/resource_rollup.go:13-48 | writes the last full hour that has ended only |
| `ResourceRollups.RollupStore.RunDailyRollup` | internal/jobs/resource_rollup.go:14-47 | writes the last full day that has ended only, from the hourly rows |
| `ResourceRollups.RollupStore.RunRetentionPurge` | internal/jobs/resource_rollup.go:54-73 | readings of the last 7 days, every copy of them, hourly rows of the last 90 and all daily rows stay, and nothing else |
| `ResourceRollups.RollupStore.PurgedReadings` | internal/repo/resource_rollups.go:104-112 | exactly the readings before the cutoff go |
| `ResourceRollups.RollupsSeeEverything` | internal/jobs/resource_rollup.go:54-73 | no purge has touched the hour or day about to be rolled up |
| `ResourceRollups.HourlyRowIs` | internal/repo/resource_rollups.go:85-102 | with one source type per source and metric the hourly row is the one its readings call for |
| `ResourceRollups.DailyRowIs` | internal/repo/resource_rollups.go:85-102 | and the daily row the one its hourly rows call for |
| `ResourceRollups.SlotsCoverTheDay` | internal/repo/resource_rollups.go:68-83 | the 24 hourly slots miss no hourly row of the day |
| `ResourceRollups.DailyRunIsIdempotent` | internal/jobs/resource_rollup.go:14-47 | a second run computes the same daily rows: it does not read what the first one wrote |
| `ResourceRollups.HourRowOfRun` | internal/scanner/discovery/resource_rollup.go:13-48 | over whole runs, with one source type per source and metric, the row of an hour of the last 90 days is the one of the readings that the query behind the last write of it saw, and there is none without such a write |
| `ResourceRollups.QueryIs` | internal/scanner/discovery/resource_rollup.go:13-48 | over whole runs of overlapping rollups each one writes what its own query answered |
| `ResourceRollups.QueryAnswers` | internal/scanner/discovery/resource_rollup.go:13-17 | over whole runs a query answers for the last full hour or day that has ended by then |
| `ResourceRollups.ReadingsGrow` | internal/infra/synology.go:619-671 | the readings of an hour grow, and are the same at two points of a run if and only if none of them was stored in between |
| `ResourceRollups.HourIsAllIff` | internal/scanner/discovery/resource_rollup.go:13-48 | over whole runs what an hourly row shows is part of its readings, and all of them up to any later point if and only if, when the hour has readings, it was rolled up and none of them was stored after the query of the last run that did |
| `ResourceRollups.HoursRolledIff` | internal/jobs/resource_rollup.go:14-47 | over whole runs, with one source type and up to any later point, the hourly rows of a window of the last 90 days show all its readings if and only if every hour with readings was rolled up by a run of the following hour and none of its readings was stored after the query of the last one |
| `ResourceRollups.DailyRunWrites` | internal/jobs/resource_rollup.go:14-47 | over whole runs of recording, overlapping rollups and both purges, with one source type per source and metric: the row a daily run writes has the true extremes of the readings its hourly rows showed at its query and a mean between them, and these are all readings of the day stored so far if and only if every hour with readings was rolled up before that query and none of its readings was stored after the query that rolled it up |
| `ResourceRollups.LastHourNeedsALateRun` | internal/jobs/resource_rollup.go:83-107 | for a daily query with no hourly query since the day's end the last hour is complete if and only if it has no readings |
| `ResourceRollups.MidnightRunMissesLastHour` | internal/jobs/resource_rollup.go:83-107 | a run in which the job that fires at midnight leaves a reading of the last second without any row |
| `ResourceRollups.LateReadingIsMissed` | internal/scanner/discovery/resource_rollup.go:13-48 | a run in which a reading stored between the query of its hour and the writes is missed |
| `ResourceRollups.KeptStep` | internal/jobs/resource_rollup.go:54-73 | every step keeps the last seven days of readings whole |
| `Migrations.FilesAreTheMigrations` | internal/repo/migrate.go:27-40 | a run goes through exactly the .sql files of the directory, each once, in ascending name order |
| `Migrations.LessIff` | internal/repo/migrate.go:32-35 | name order is by the first character that differs, a proper prefix first |
| `Migrations.Database.Apply` | internal/repo/migrate.go:57-64 | execute then record; a process that ends between the two leaves the file executed and unrecorded |
| `Migrations.Database.Visit` | internal/repo/migrate.go:37-66 | one turn of the loop skips, applies or is cut off |
| `Migrations.Database.RunMigrations` | internal/repo/migrate.go:17-70 | what a run executes is in ascending name order, new, and recorded except for the last file of a run cut off in between; a complete run leaves every .sql file recorded; every run, cut off at any database call or complete, keeps the state consistent; one with nothing pending executes nothing; a cut run repeats at most the one file it executed and did not record; enough calls always complete it |
| `Migrations.CutIsConsistent` | internal/repo/migrate.go:57-64 | a cut between execute and record keeps the collapsed log a prefix of the plan |
| `Migrations.AppliedIsConsistent` | internal/repo/migrate.go:57-64 | so does a recorded file |
| `Migrations.CompleteLog` | internal/repo/migrate.go:17-70 | when nothing is pending the log with adjacent repeats taken once is the sorted list of files that were pending, each executed once plus once per cut right after it |
| `Decimal.ValueOfPrint` | internal/ingest/pipeline.go:165-192 | the decimal print of a number reads back as that number |
| `Decimal.ValueOfDigits` | internal/ingest/pipeline.go:165-192 | each further digit counts ten times what stands before it |

## Left out

- HTTP decoding and encoding, routing, the frontend, mail and HTML: plumbing or presentation.
- SQLite, JSON encoding, regular expressions and goroutine scheduling are assumed; only the conflict, ordering and visibility rules of the statements used are modelled.
- The four operators of a rule's conditions and the lookup of their fields enter RulesEngine as the predicate `matches`, the JSON of the conditions as `parse`.
- Network pollers and probes: their answers enter as arbitrary observations.
- Write errors of the link table (logged or ignored by the handlers) and read errors of the ancestor walk, which ends there as if no parent existed.
- `GetTopology`'s error answers when a table cannot be listed; missing containers enter as an empty list.
- The second copy of the path evaluator (internal/apptemplate/apptemplate.go:492-549) has the same body and is modelled once.
- The field extractors' callers `InferEventTypeFromKeys`, `mapSeverity` and `mergePayload`: short branches.
- Integers in the decimal parser are unbounded; `strconv.Atoi` refuses what does not fit a machine word.
- `fmt.Sscanf` also accepts blanks and a plus sign before a number; labels the program prints hold neither, and the fallback to the current month does not depend on it.
- DigestPeriods.DailyRangeContains: only years of four digits, because Go's layout prints and parses exactly those.
- DigestPeriods.MonthlyRangesTile: only years of four digits, for the same reason.
- DigestPeriods.DailyRangeContainsIff: the same.
- DigestPeriods.MonthlyRangeContainsIff: the same.
- Time zone rules: a zone enters as the offset it has at the instant.
- The digest's narrative, list capping and display truncation: formatting.
- Letter case in the event search follows SQLite's ASCII folding; texts are sequences of characters.
- Paging and counting in `List`: the clause is the hard part, the rest appends LIMIT and OFFSET.
- Payloads enter as what `json_extract` finds at each path, so the path syntax of the spliced field names is not spelled out.
- `runCheckLoop`'s ticker, its minimum interval and the probes it dispatches; a goroutine keeps the row it was started with, as modelled.
- A rollup's clock reading and its listing of apps: a monthly rollup takes its month when it starts, an hourly or daily one its period at its query, and apps are queried in any order and number. The jobs' schedules are arbitrary times.
- Names of fields and values in Templates: where a field name holds `}` or a value holds `{` the order can show, and `OrderShowsIff` says when it does for two fields.
- Time stamps of one reconciler run are one clock value; the database's own clock for the active flag is not told apart.
- JSON configs of digest entries enter as text; the letters outside ASCII that lower-case into a-z are the Kelvin sign and the dotted capital I.
- The engine's online or offline status, which a scan also stores.
- `ShouldSendToday` and the hourly digest job around it: three one-line comparisons.
- The link rows written next to container upserts are in ComponentLinks, not in DockerScan; deleting an app or a component (which clears links or cascades to rows) is in neither.
- DockerScan.ContainerStore.MarkStoppedIfNotRunning: the placeholder buffer of its NOT IN list is not spelled out; EventQuery covers such lists.
- `env_vars`, image digests and registry checks of container rows: no scan or event touches them.
- Guest and slot keys are pairs and numbers instead of their printed forms, which are one to one.
- Event creation errors in the detectors are logged there and not modelled; the log holds the events created.
- ResourceRollups.RollupStore.RunDailyRollup: with several source types for one source and metric the last group in query order wins, and the contract says only that some group does.
- Migrations.Database.Apply: a file cut off in the middle of its own SQL counts as executed and is executed again; a migration that always fails never completes and is outside the run theorem.
- The directory listing of migrations is assumed to hold every name once, as a file system does.
- Login, tokens, settings, icons, user management and push notifications: short branches.
