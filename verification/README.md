# Verified models of the manager's stateful components

This project models, in Dafny, the parts of the Cloudify manager that keep state over many operations, and proves
what each of them keeps true over every run. Each component has its own modules.

- **Execution scheduler** (`Executions`, `Dequeue`, `Startable`, `SchedulerRuns`, `Starts`): submitting, queueing,
  dequeueing and reporting on executions, as steps over one table; the loop over prepared executions, the exact
  conditions under which an execution starts, waits or is refused, the allocation of free slots, and the passes that
  start queued executions.
- **Cancellation** (`Worklists`, `Cancellation`): collecting the latest executions of all components below the
  requested ones, then marking all of them or none.
- **Deployment label graph** (`Graph`, `Dependencies`, `LabelGraph`, `Recalculation`, `ChangeRecalculation`,
  `Totals`): adding and deleting edges in batches with a cycle check, the consumer labels that mirror the edges, the
  recursive dependency query, the incremental recalculation of cached counts and statuses, and what these mean.
- **Deployment modification** (`InstanceRelationships`, `Modification`, `Scaling`): start, finish and rollback over
  node instances, planned and current counts, and relationship lists.
- **Deployment update** (`Occurrences`, `StepExtractor`, `StepForms`, `UpdateWorkflow`, `RelationshipOrder`,
  `UpdateInstances`, `Reinstalls`): the difference between two plans as steps, the two phases that write it, the order
  of instance relationships, and the choice between updating and reinstalling an instance.
- **Durable pipelines** (`LimitedSizeDicts`, `Publisher`, `SnapshotNames`, `SnapshotDump`, `SnapshotRestore`,
  `DictMerge`, `MergedPaths`): the publisher of logs and events with its bounded cache, dumping entities to numbered
  files and restoring them, and the deep merge of configuration dictionaries in place.

Objects and loops of the original are methods here, each proved equal to a function of the old state; the lemmas then
say what is true of that function over all inputs, all answers of the outside world, and all runs. The database is a
sequence or map; the clock, remote calls, failures and the order in which sets are traversed are arbitrary values. The
state sets `active` and `end` come from another library, and are parameters: pending and started are active, queued is
not, and active and end are disjoint.

Some properties one would expect do not hold of the code. Each such case is kept as it is, with inputs on which it
fails and the exact condition:

- **A parent is refreshed after its children** (the comment at `resource_manager.py:2878` says that parents come
  before grandparents): the query returns a deployment at its first level, so with paths of different length a
  grandparent can come first, and its values end wrong (`UnevenPathsExample`). Recalculation is right for all cached
  values exactly if the query meets each deployment above the changed ones on a lower level than each of its parents,
  or on the same level by an edge stored earlier (`RecalculationIsRightIff`, with `EntersBefore` read off the stored
  edges). The condition is the same for values that were right before a change of the changed deployments
  (`ChangeIsRecalculatedIff`, `LostChildExample`).
- **A count is the number of deployments below**: it is the number of paths up from them (`CountIsPaths`), so a
  service below two environments that have one parent is counted twice there (`DiamondExample`). A count is never too
  low, and right exactly if one path leads up from each deployment (`CountIsRightIff`).
- **Nothing blocking starts while a system execution is queued**: a newly submitted system-wide execution does
  (`NewcomerExample`), exactly if nothing is active; beside something active it can only stay pending, exactly if it
  is refused for good and its row is kept (`NewcomerStartsIff`).
- **A system-wide execution runs alone, and a refused submit leaves nothing**: restoring a snapshot stores its pending
  execution outside of a transaction, and a refusal does not remove it, so it stays beside what is active
  (`RefusedRestoreExample`). System-wide executions are alone at every step of a run exactly if no submit of the run
  is refused in that way (`AloneThroughoutIff`); all other submits are undone when they are refused, by a transaction
  or a clean-up.
- **A pass that starts nothing has nothing to start**: a group with concurrency 0, which is allowed, is left out of
  the query only while something in it is active, so five queued executions of it use up the rows of the query, and
  executions that could start are not seen (`BehindPausedExample`). A pass picks nothing exactly if no system
  execution is queued, and the total limit is reached, or nothing can start, or all rows are held up in this way
  (`PickedNothingIff`); where every group allows some execution, only the first two remain (`NothingStartsIff`).
- **What waits will start**: a system execution of a deployment finds itself among the active ones, so it is queued
  when it is submitted, and again each time it is dequeued (`SystemOfDeploymentNeverStarts`). What any other execution
  needs to start is exact too (`DecideIff`, `RefreshIff`, `PassIff`).
- **A cancelling execution is not started again**: a report of a waiting status releases it, and the next report
  starts it (`WaitingReleases`); no run starts it exactly if no waiting status is reported (`NeverStartedAgainIff`).
- **Cancelling ends**: from a request on or above a cycle of components whose executions are all unfinished it does
  not, if nothing concerned is refused (`CyclesNeverEnd`). The loop empties its worklist exactly if nothing concerned
  is refused or on a cycle, and comes to a refused execution exactly if a path leads down to one with only harmless
  executions listed after each step; in all other cases it does not end (`CollectingEndsIff`).
- **A modification request that raises changes nothing**: start, finish and rollback run outside of a transaction. A
  start with an unknown name leaves a started modification, unless the planner refuses the name first, and no request
  can end it (`UnknownNameIsStarted`, `UnknownNameStaysStarted`). A start that raises changes nothing exactly if
  another modification is started (`RaisedStartChangesNothingIff`).
- **Rolling back restores the counts**: a finish that raises at a lost instance has written the current counts
  (`LostInstancesExample`). Starting, any run and rolling back restores the instances, and the counts exactly if
  nobody tried to finish on the way, or the modification asks for the counts that there were
  (`RollbackUndoesStartIff`).
- **A supported update converges**: not if an operation's step mentions an entity named `relationships`
  (`HiddenOperationExample`); it converges exactly if every node's operation change is visible (`UpdateConverges`).
- **Starting a modification loses no relationship**: the dictionary comprehension over `groupby` keeps only the last
  run of a name (`UngroupedExample`), and a node with two relationships to one target gets its entries twice
  (`RepeatedTargetExample`). With distinct targets the merge is a permutation exactly if both lists are grouped and
  name only targets (`MergeIsPermutationIff`); with any targets, if the lists are grouped, exactly if each entry's
  target occurs once (`GroupedMergeIff`), and if no entry is listed twice, exactly if both conditions hold
  (`MergeIsPermutationForAnyTargetsIff`).
- **Dump files are never overwritten**: from 10^8 files on they are (`OverwriteExample`), unless all digits of their
  number but the last are nines (`OverwritesIff`); from then on they are also read in another order
  (`ListedInOrderIff`).
- **The latest version is restored**: an empty source name is written like a missing one, so within one call a source
  that comes back after another one that reads the same can lose its latest version (`ComingBackExample`,
  `KeepsLatestIff`). The function that writes the files accepts such entities; the clients that dump them are not
  known to yield them.

The set of node instances contained in another one is computed by another library. The set to reinstall is the same
for every order of the drifted instances under the assumption that containment is transitive, and only then
(`NeverDependsOnOrderIff`).

## Model

| member | source | states |
|---|---|---|
| Executions.Advance | rest-service/manager_rest/resource_manager.py:1178-1250 | one turn of the loop keeps the worklist within the table, and either shortens it or uses up one of the allowed executions |
| Executions.ExecutionStore.TakeOne | rest-service/manager_rest/resource_manager.py:1178-1250 | the turn as it is made in place equals `Advance`; an exception leaves the table as it was |
| Executions.ExecutionStore.PrepareExecutions | rest-service/manager_rest/resource_manager.py:1171-1250 | the loop over the worklist ends, also when components contain each other in a cycle, and equals its specification: same table, messages, and failure or exception |
| SchedulerRuns.StartedIsSettled | rest-service/manager_rest/resource_manager.py:1260-1344 | an execution that the checks let start has no active rival in its deployment, and no queued one created before it |
| SchedulerRuns.GoMeansAlone | rest-service/manager_rest/resource_manager.py:1205-1217 | the checks let a system-wide execution start only where nothing is active, and any other only where no system-wide one is |
| SchedulerRuns.AdvanceInOrder | rest-service/manager_rest/resource_manager.py:1200-1250 | a turn either starts an execution without a rival in its deployment, or leaves it inactive |
| SchedulerRuns.PrepareInOrder | rest-service/manager_rest/resource_manager.py:1171-1250 | a request that does not cascade leaves one active execution per deployment, and each started one had no older queued rival |
| SchedulerRuns.RefreshInOrder | rest-service/manager_rest/resource_manager.py:293-345 | the same for one dequeued execution, whatever fails on the way |
| SchedulerRuns.StepInOrder | rest-service/manager_rest/resource_manager.py:543-568 | each submit, dequeue pass or report keeps one active execution per deployment, with the status changes that a report may make |
| SchedulerRuns.RunsAreExclusive | rest-service/manager_rest/resource_manager.py:1260-1326 | over every run of unforced submits, dequeues and reports on active executions: one active execution per deployment, and no start overtakes an older queued execution |
| SchedulerRuns.PrepareFrame | rest-service/manager_rest/resource_manager.py:1171-1250 | whatever a request decides, rows are only added at the end, and of the others at most the status of those it was given changes |
| SchedulerRuns.PrepareSupervised | rest-service/manager_rest/resource_manager.py:1206-1217 | any checked request, forced or cascading, leaves a system-wide execution alone |
| SchedulerRuns.KeptSubmitIff | rest-service/manager_rest/resource_manager.py:694-726 | a checked submit of one execution whose row is kept when it is refused leaves system-wide executions alone if and only if it is not a system-wide one that may not wait, submitted while something is active |
| SchedulerRuns.StepSupervisedIff | rest-service/manager_rest/resource_manager.py:1268-1292 | of all steps, only such a refused submit puts an active system-wide execution beside another active one |
| SchedulerRuns.AloneThroughoutIff | rest-service/manager_rest/resource_manager.py:1268-1292 | over every run, forced and cascading submits included, system-wide executions are alone at every step if and only if no refused one stays pending |
| SchedulerRuns.RefusedRestoreExample | rest-service/manager_rest/resource_manager.py:694-726 | a snapshot to be restored while a workflow runs: the request is refused, and its execution stays pending |
| SchedulerRuns.SystemWideRunsAlone | rest-service/manager_rest/resource_manager.py:1268-1292 | over every run without such a refused submit, forced and cascading ones included, an active system-wide execution is the only active one |
| SchedulerRuns.SubmitWhileQueued | rest-service/manager_rest/resource_manager.py:1328-1344 | while a system execution is queued, a submit makes at most system-wide executions active, and only where nothing else is, unless it is refused and stays pending |
| SchedulerRuns.NewcomerStartsIff | rest-service/manager_rest/resource_manager.py:1288-1344 | the exact condition: a newcomer ends up active beside the queued system execution if and only if it is system-wide, and nothing is active, or it is refused for good and its row is kept |
| SchedulerRuns.NewcomerExample | rest-service/manager_rest/resource_manager.py:1288-1344 | a second snapshot submitted while one is queued is started at once |
| SchedulerRuns.PassWhileQueued | rest-service/manager_rest/resource_manager.py:447-461 | while a system execution is queued, a dequeue starts none but the oldest of those, and adds no row |
| SchedulerRuns.PassStartsThePicked | rest-service/manager_rest/resource_manager.py:293-345 | a pass without cascades changes the picked rows only, and raises the active counts, in total and per group, by no more than was picked |
| SchedulerRuns.PassKeepsLimits | rest-service/manager_rest/resource_manager.py:463-505 | after such a pass each group has at most as many active executions as before, or as its concurrency, and the total is within the limit or what was counted before |
| SchedulerRuns.OnlyReportsChange | rest-service/manager_rest/resource_manager.py:170-183 | an execution that is not queued is changed by an accepted report only |
| SchedulerRuns.EndedStaysEnded | rest-service/manager_rest/resource_manager.py:549-555 | over every run, with arbitrary submits and reports, an ended execution keeps its status unless it is a snapshot's |
| SchedulerRuns.WaitingReleases | rest-service/manager_rest/resource_manager.py:556-568 | a report of a waiting status and one of `started` start a cancelling execution again |
| SchedulerRuns.NeverStartedAgainIff | rest-service/manager_rest/resource_manager.py:556-568 | no run starts a cancelling execution of any workflow but `create_snapshot` again if and only if no waiting status is reported |
| SchedulerRuns.RefreshExecution | rest-service/manager_rest/resource_manager.py:293-345 | starts one dequeued execution in place, and reports whether anything failed; an exception leaves it failed |
| SchedulerRuns.StartOnce | rest-service/manager_rest/resource_manager.py:272-292 | dequeues once in place; it starts nothing if and only if there is nothing to start; without a queued system execution and without cascades the table afterwards is within every limit, or as it was |
| SchedulerRuns.StartQueuedExecutions | rest-service/manager_rest/resource_manager.py:272-292 | up to five passes, repeated exactly while something failed, and none if and only if there is nothing to start; the passes are a supervised run, and together keep each group within its concurrency or what it had before |
| Starts.DecideIff | rest-service/manager_rest/resource_manager.py:1205-1344 | the exact conditions, over the rows of the table, under which an execution may start, is queued, or is refused |
| Starts.TurnIff | rest-service/manager_rest/resource_manager.py:1178-1250 | what each turn of the loop does: skip, limit, failed check, start exactly where it may, wait or raise; and which rows, messages and components it adds |
| Starts.SubmitIsTurns | rest-service/manager_rest/resource_manager.py:1171-1250 | a submitted batch is stored behind the other rows, taken from the last to the first, turn by turn until the worklist is empty or a turn raises |
| Starts.NothingIsForgotten | rest-service/manager_rest/resource_manager.py:1171-1250 | a request that does not raise has dealt with each of its executions, and with each added for a component: sent, queued, failed, or its components were added before |
| Starts.SingleSubmitIff | rest-service/manager_rest/resource_manager.py:1171-1250 | the exact fate of one submitted execution that does not cascade: pending if and only if nothing keeps it from starting |
| Starts.DeploymentSubmitIff | rest-service/manager_rest/resource_manager.py:1260-1326 | one checked execution of a deployment starts if and only if no system execution is active or queued, and it is forced or no other of the deployment is active, or queued and older; else it waits or the request raises, each exactly where it should |
| Starts.RefreshIff | rest-service/manager_rest/resource_manager.py:293-345 | the exact fate of one dequeued execution: started if and only if it is free to start, else back in the queue, or failed |
| Starts.PassIff | rest-service/manager_rest/resource_manager.py:272-345 | in a pass over executions of different deployments each is started if and only if it was free to start when the pass began, and no other row changes |
| Starts.PassSucceedsIff | rest-service/manager_rest/resource_manager.py:272-345 | a pass is not repeated if and only if none of its executions fails; one that is queued again does not count as failed |
| Starts.SystemOfDeploymentNeverStarts | rest-service/manager_rest/resource_manager.py:1268-1292 | a system execution of a deployment keeps itself from starting, when it is submitted and whenever it is dequeued |
| Starts.ReportIff | rest-service/manager_rest/resource_manager.py:543-568 | which reports are accepted, and that the others change nothing |
| Dequeue.ReportRunning | rest-service/manager_rest/resource_manager.py:408-445 | counts active executions in total and per group from one row per execution and group |
| Dequeue.TotalCoversActive | rest-service/manager_rest/resource_manager.py:408-445 | the counted total is never below the number of active executions |
| Dequeue.OldestQueuedSystem | rest-service/manager_rest/resource_manager.py:447-461 | finds a queued system execution if and only if there is one, and then the oldest |
| Dequeue.PickOne | rest-service/manager_rest/resource_manager.py:473-505 | picking a row within the limits keeps selection fair, groups within their limits, and every passed row justified |
| Dequeue.Allocate | rest-service/manager_rest/resource_manager.py:463-505 | per group, active plus picked stays within the larger of active and concurrency; the total within the limit; one per deployment, in storage order; every row left out had a reason |
| Dequeue.GetQueuedExecutions | rest-service/manager_rest/resource_manager.py:447-505 | a pass picks the oldest system execution alone, or a fair selection within all limits |
| Startable.QueryCounts | rest-service/manager_rest/resource_manager.py:347-406 | before its limit the query has exactly the queued executions that may run, each once for each of its groups |
| Startable.ActiveInCounts | rest-service/manager_rest/resource_manager.py:408-445 | the count of a group is the number of its active executions |
| Startable.TotalCountsJoined | rest-service/manager_rest/resource_manager.py:408-445 | the total is the number of joined rows, so an active execution of several groups counts several times |
| Startable.PickedNothingIff | rest-service/manager_rest/resource_manager.py:447-505 | a pass picks nothing if and only if no system execution is queued, and the total is reached, nothing can start, or paused executions use up the rows of the query |
| Startable.NothingStartsIff | rest-service/manager_rest/resource_manager.py:447-505 | where no group is paused, nothing is picked if and only if the total is reached or nothing can start, in terms of deployments, groups and limits |
| Startable.BehindPausedExample | rest-service/manager_rest/resource_manager.py:347-406 | five executions of a paused group, behind which one that could start is never listed |
| Cancellation.Latest | rest-service/manager_rest/resource_manager.py:1354-1368 | the most recently created execution of a deployment, found exactly if there is one |
| Cancellation.Collect | rest-service/manager_rest/resource_manager.py:1406-1506 | whenever the loop ends: exactly the requested executions and the unfinished latest ones reachable from them, or the refused one among those |
| Cancellation.CollectOne | rest-service/manager_rest/resource_manager.py:1484-1506 | a turn keeps: flagged or pending are the requested ones, and closed below the flagged |
| Cancellation.CancelExecutions | rest-service/manager_rest/resource_manager.py:1406-1537 | raises with nothing changed if and only if something on a chain of running components cannot be cancelled; else marks exactly what is on such a chain, and kills exactly what the first phase flagged |
| Cancellation.BelowIff | rest-service/manager_rest/resource_manager.py:1354-1404 | below an execution are exactly the newest executions of its components that have not ended |
| Cancellation.UnfinishedInOrder | rest-service/manager_rest/resource_manager.py:1354-1368 | they come in the order in which the components are listed |
| Cancellation.ConcernedIff | rest-service/manager_rest/resource_manager.py:1484-1506 | concerned is exactly what a chain leads to, each execution running a component of the one before it |
| Cancellation.RefusedIff | rest-service/manager_rest/resource_manager.py:1435-1453 | refused is exactly what is in a status that the mode does not allow, or has a component without any execution |
| Cancellation.CancelledTogether | rest-service/manager_rest/resource_manager.py:1406-1537 | on the tables before and after: who is requested or changed takes the running executions of its components along, each changed row has such a cause, and no finished execution changes unless it was requested |
| Cancellation.CyclesNeverEnd | rest-service/manager_rest/resource_manager.py:1484-1506 | from a request on or above a cycle of unfinished components, nothing concerned being refused, the worklist is not empty after any number of turns |
| Cancellation.CollectingEndsIff | rest-service/manager_rest/resource_manager.py:1484-1506 | the exact conditions, from the table and the order in which components are listed: when the worklist becomes empty, when it comes to a refused execution, and that it does not end otherwise |
| Worklists.EmptiesIff | rest-service/manager_rest/resource_manager.py:1484-1506 | a worklist without memory becomes empty if and only if nothing reachable is refused or on a cycle |
| Worklists.HaltsIff | rest-service/manager_rest/resource_manager.py:1484-1506 | it stops at a refused entry if and only if a path leads down to one past harmless entries only |
| Graph.RankDecreases | rest-service/manager_rest/storage/resource_models.py:2481-2533 | on an acyclic graph the number of ancestors decreases along every edge, which bounds the recursion of the query |
| Graph.TurnShortens | rest-service/manager_rest/resource_manager.py:1484-1506 | on an acyclic graph the turns a worklist still needs go down by one with each turn |
| Dependencies.GetDependencies | rest-service/manager_rest/storage/resource_models.py:2545-2582 | the query ends on an acyclic graph, and returns exactly the reachable deployments, each once, at its first level |
| Dependencies.AnswerIsAbove | rest-service/manager_rest/storage/resource_models.py:2481-2533 | the levels of the recursive query are exactly reachability |
| Dependencies.AnswerIsInOrder | rest-service/manager_rest/storage/resource_models.py:2545-2582 | the query's order: a deployment comes first if and only if it is met on a lower level, or on the same level by an edge stored earlier |
| LabelGraph.AddingKeepsAcyclic | rest-service/manager_rest/resource_manager.py:1777-1823 | a batch that passes the check closes no cycle |
| LabelGraph.FailedCheckWouldCycle | rest-service/manager_rest/resource_manager.py:1785-1800 | a batch that fails the check would close one |
| LabelGraph.AddingIsConsistent | rest-service/manager_rest/resource_manager.py:1777-1823 | adding keeps the graph acyclic, and consumer labels naming exactly the direct children |
| LabelGraph.DeletingIsConsistent | rest-service/manager_rest/resource_manager.py:1825-1847 | deleting keeps the same |
| LabelGraph.ConsumerLabelsAreProtected | rest-service/manager_rest/resource_manager.py:2689-2735 | a user's update neither adds nor removes a consumer label |
| LabelGraph.RelabellingIsConsistent | rest-service/manager_rest/resource_manager.py:2675-2735 | replacing a user's labels keeps graph and consumer labels consistent |
| LabelGraph.RunsKeepTheGraph | rest-service/manager_rest/resource_manager.py:1777-1847 | over every run of batch adds, batch deletes and label updates: acyclic, and each parent's consumer labels name exactly its direct children |
| LabelGraph.LabelStore.AddToGraph | rest-service/manager_rest/resource_manager.py:1777-1823 | missing parents, a cycle and a stored pair raise with nothing changed; else exactly all pairs and their labels are added, parents first |
| LabelGraph.LabelStore.DeleteFromGraph | rest-service/manager_rest/resource_manager.py:1825-1847 | removes exactly the pairs and labels of the batch |
| LabelGraph.LabelStore.UpdateResourceLabels | rest-service/manager_rest/resource_manager.py:2675-2735 | replaces the user's labels in place, and keeps the store consistent |
| LabelGraph.AddOutcomeIff | rest-service/manager_rest/resource_manager.py:1777-1823 | which outcome a request to add has, from the stored names and edges |
| LabelGraph.AddedIsStored | rest-service/manager_rest/resource_manager.py:1802-1823 | the edges and labels after adding: those before, and every child of the batch below every parent, in storage order and none twice |
| LabelGraph.DeletedIsStored | rest-service/manager_rest/resource_manager.py:1825-1847 | the edges and labels after deleting: all others, as often as before and in their order |
| LabelGraph.RelabelledIsStored | rest-service/manager_rest/resource_manager.py:2675-2735 | the labels after a user's update: what was wanted or is a consumer label stays, and what is wanted, new and none is created |
| Recalculation.ChildrenFirstIsRight | rest-service/manager_rest/resource_manager.py:2868-2944 | refreshing children before parents makes every value right, from any values of those refreshed |
| Recalculation.RightIffChildrenFirst | rest-service/manager_rest/resource_manager.py:2868-2944 | only such orders do: for any other there are values that end wrong |
| Recalculation.PrependingIsSafe | rest-service/manager_rest/resource_manager.py:2876-2890 | the list is the changed deployments and their ancestors, each once; putting the missing ones first keeps children first exactly if the query's order has them first |
| Recalculation.RecalculationIsRight | rest-service/manager_rest/resource_manager.py:2868-2944 | if all others were right and the query meets children before parents, every deployment satisfies the equation over its children afterwards |
| Recalculation.MetChildrenFirstIff | rest-service/manager_rest/storage/resource_models.py:2545-2582 | the answer has children before parents if and only if, on the stored edges, each deployment above the changed ones is met before each of its parents |
| Recalculation.RecalculationIsRightIff | rest-service/manager_rest/resource_manager.py:2868-2944 | the exact condition on the stored edges: recalculation is right for all cached values if and only if each deployment above the changed ones is met before each of its parents |
| Recalculation.SingleParentsAreRight | rest-service/manager_rest/resource_manager.py:2868-2944 | with one changed deployment and at most one parent each, the query always has children first |
| Recalculation.UnevenPathsExample | rest-service/manager_rest/storage/resource_models.py:2545-2582 | an answer of the query with a grandparent before a parent, which leaves wrong values |
| ChangeRecalculation.ChangeIsRecalculatedIff | rest-service/manager_rest/resource_manager.py:2868-2944 | for values that were right before the changed deployments got another state or other children, recalculation is right after every such change under exactly the same condition |
| ChangeRecalculation.LostChildExample | rest-service/manager_rest/storage/resource_models.py:2545-2582 | with uneven paths, some change such as the loss of a child leaves wrong values |
| Recalculation.ConsistentValues | rest-service/manager_rest/storage/resource_models.py:2677-2728 | on an acyclic graph the equation over the children has a solution |
| Recalculation.DeploymentStore.RecalcAncestors | rest-service/manager_rest/resource_manager.py:2868-2944 | the refresh in place, deployment by deployment, and what it makes right |
| Totals.StatusIsWorst | rest-service/manager_rest/resource_manager.py:2891-2943 | with right values the status of a deployment is the worst own status of itself and everything below it |
| Totals.SideIsWorst | rest-service/manager_rest/resource_manager.py:2891-2925 | the cached status of services or environments is the worst status of the descendants on that side |
| Totals.CountIsPaths | rest-service/manager_rest/resource_manager.py:2891-2912 | a cached count is the number of paths up from the services or environments below |
| Totals.CountIsRightIff | rest-service/manager_rest/resource_manager.py:2891-2912 | it is never below the number of descendants, and equals it if and only if one path leads up from each |
| Totals.SingleParentsCount | rest-service/manager_rest/resource_manager.py:2891-2912 | with at most one parent each, counts are numbers of descendants |
| Totals.DiamondExample | rest-service/manager_rest/resource_manager.py:2891-2912 | a service that is counted twice |
| InstanceRelationships.GroupByTarget | rest-service/manager_rest/resource_manager.py:2034-2050 | per target name, the last run of consecutive entries |
| InstanceRelationships.Merge | rest-service/manager_rest/resource_manager.py:2034-2071 | target by target, the current group and then the added one |
| InstanceRelationships.MergeIsPermutationIff | rest-service/manager_rest/resource_manager.py:2034-2071 | with distinct targets, the merge is a permutation of current plus added if and only if both are grouped and name only targets of the node |
| InstanceRelationships.GroupedMergeIff | rest-service/manager_rest/resource_manager.py:2034-2071 | for grouped lists and any targets, the merge is a permutation if and only if the target of each entry occurs exactly once |
| InstanceRelationships.MergeIsPermutationForAnyTargetsIff | rest-service/manager_rest/resource_manager.py:2034-2071 | for any targets and lists without repeated entries, it is one if and only if both are grouped and the target of each entry occurs exactly once |
| InstanceRelationships.UngroupedExample | rest-service/manager_rest/resource_manager.py:2034-2050 | an entry before one for another target is lost |
| InstanceRelationships.RepeatedTargetExample | rest-service/manager_rest/resource_manager.py:2034-2071 | with two relationships to one target its entry is written twice |
| InstanceRelationships.MergedInOrder | rest-service/manager_rest/resource_manager.py:2034-2071 | with distinct targets the result is in node order, for any input |
| InstanceRelationships.WithoutInOrder | rest-service/manager_rest/resource_manager.py:2104-2122 | finishing keeps node order, and exactly the entries whose target stays |
| Modification.DeploymentRows.StartModification | rest-service/manager_rest/resource_manager.py:1956-2074 | raises with nothing changed if another one is started; else stores the modification with a copy of all instances, then the planned counts, extended and new instances, and keeps what was stored when it raises |
| Modification.DeploymentRows.FinishModification | rest-service/manager_rest/resource_manager.py:2076-2127 | writes current counts, then removes and reduces instances, then ends the modification; what was written before an exception stays |
| Modification.DeploymentRows.RollbackModification | rest-service/manager_rest/resource_manager.py:2129-2202 | deletes new instances, restores the remembered ones, then the planned counts, and ends the modification; what was written before an exception stays |
| Modification.RunsAreBalanced | rest-service/manager_rest/resource_manager.py:1956-2202 | over all runs, requests that raise midway included, at most one modification is started, and whenever none is, planned equals current for every node and scaling group |
| Modification.SetCountsIff | rest-service/manager_rest/resource_manager.py:2022-2035 | writing the counts raises exactly at an unknown name, and then has stored those of some names |
| Modification.RollbackUndoesStartIff | rest-service/manager_rest/resource_manager.py:2129-2202 | a start, even one that raises midway, any run, and a rollback: ids and settable attributes come back, and all counts if and only if nobody tried to finish on the way or the counts asked for were there before |
| Modification.RollbackEndsIff | rest-service/manager_rest/resource_manager.py:2129-2202 | a started modification can be rolled back if and only if its names are known, and each instance to be created again has its node |
| Modification.RaisedStartChangesNothingIff | rest-service/manager_rest/resource_manager.py:1956-2030 | a start that raises changes nothing if and only if another modification is started |
| Modification.UnknownNameIsStarted | rest-service/manager_rest/resource_manager.py:2017-2031 | a start with an unknown name raises with its modification stored as started |
| Modification.UnknownNameStaysStarted | rest-service/manager_rest/resource_manager.py:2022-2031 | over every run, such a modification stays started |
| Modification.RaisedFinishWritesCountsIff | rest-service/manager_rest/resource_manager.py:2091-2109 | a finish that raises at an instance leaves the counts as they were if and only if the modification asks for them |
| Modification.LostInstancesExample | rest-service/manager_rest/resource_manager.py:2091-2109 | a lost instance, a finish that raises, and a rollback: old instances next to new counts |
| Modification.ExtendLosesNothing | rest-service/manager_rest/resource_manager.py:2034-2071 | with grouped incoming entries, start keeps every current and new entry, in node order |
| Modification.StartKeepsOrder | rest-service/manager_rest/resource_manager.py:1990-2071 | start keeps all lists in node order, those remembered for a rollback included, also when it raises |
| Modification.RunsKeepOrder | rest-service/manager_rest/resource_manager.py:1956-2202 | over every run with fitting plans, requests that raise included, all stored lists stay in node order |
| Scaling.StartIff | rest-service/manager_rest/resource_manager.py:1956-2074 | what a start needs, exactly; then the instances are those before and the planned new ones, as planned, and the others only get their relationships extended |
| Scaling.StartExtends | rest-service/manager_rest/resource_manager.py:2032-2071 | an instance that no change extends stays as it is; one that a single change extends has exactly the two lists merged |
| Scaling.StartWrites | rest-service/manager_rest/resource_manager.py:1956-2031 | the counts and the stored modification after a start: planned counts of the named nodes and groups, and nothing else |
| Scaling.FinishIff | rest-service/manager_rest/resource_manager.py:2076-2127 | what a finish needs, exactly; then exactly the removed instances are gone, unnamed ones stay as they are, and the others keep exactly the relationships that no change takes away |
| Scaling.FinishWrites | rest-service/manager_rest/resource_manager.py:2076-2127 | the counts and the modification after a finish |
| Scaling.RollbackWrites | rest-service/manager_rest/resource_manager.py:2129-2202 | the counts and the modification after a rollback |
| Scaling.SetCountsStopsAt | rest-service/manager_rest/resource_manager.py:2022-2035 | which counts are stored when an unknown name raises: those of the names up to the last node before it |
| Scaling.ChangesStopAtFirst | rest-service/manager_rest/resource_manager.py:2036-2074 | a start or finish that raises at an instance keeps exactly the changes before the first that fails |
| Scaling.RestoringStopsAtFirst | rest-service/manager_rest/resource_manager.py:2157-2175 | so does a rollback that raises at an instance |
| Occurrences.MatchIsSymmetric | mgmtworker/cloudify_system_workflows/deployment_update/step_extractor.py:238-314 | matching the k-th occurrences is a partial bijection of the two lists |
| Occurrences.UnmatchedBalance | mgmtworker/cloudify_system_workflows/deployment_update/step_extractor.py:238-314 | matched and unmatched entries partition both lists: their unmatched counts differ by their lengths |
| StepExtractor.FindRelationship | mgmtworker/cloudify_system_workflows/deployment_update/step_extractor.py:337-353 | finds the occurrence after `skip` earlier ones, or there are no more than `skip` |
| StepExtractor.DiffPlanRelationships | mgmtworker/cloudify_system_workflows/deployment_update/step_extractor.py:246-289 | the running counters find the partner of every plan entry: exactly its add, move and inner steps |
| StepExtractor.DiffStoredRelationships | mgmtworker/cloudify_system_workflows/deployment_update/step_extractor.py:291-307 | exactly the remove steps of stored entries |
| StepExtractor.DiffNode | mgmtworker/cloudify_system_workflows/deployment_update/step_extractor.py:238-314 | exactly the steps of a node: operations, properties and relationships |
| StepExtractor.DiffNodes | mgmtworker/cloudify_system_workflows/deployment_update/step_extractor.py:195-226 | exactly the steps of two plans, with unsupported steps for changed types and containers |
| StepExtractor.NoStepsIffSameNode | mgmtworker/cloudify_system_workflows/deployment_update/step_extractor.py:238-326 | a node yields no step if and only if operations, properties and relationships agree, missing read as empty |
| StepExtractor.AddedAreUnmatched | mgmtworker/cloudify_system_workflows/deployment_update/step_extractor.py:246-289 | added entries are exactly the plan's unmatched ones |
| StepExtractor.MovedAreDisplaced | mgmtworker/cloudify_system_workflows/deployment_update/step_extractor.py:246-289 | moved entries are exactly those matched at another index |
| StepExtractor.RemovedAreUnmatched | mgmtworker/cloudify_system_workflows/deployment_update/step_extractor.py:291-307 | removed entries are exactly the stored ones that no plan entry is matched with |
| StepExtractor.StepsRebuildTheList | mgmtworker/cloudify_system_workflows/deployment_update/step_extractor.py:238-314 | the steps turn the stored list into the plan's key sequence, position by position |
| StepForms.StepIff | mgmtworker/cloudify_system_workflows/deployment_update/step_extractor.py:195-326 | a step is extracted if and only if it is expected: for each form of step, its action and support, the exact condition on both plans |
| UpdateWorkflow.ModifiedAttributes | mgmtworker/cloudify_system_workflows/deployment_update/workflow.py:110-144 | the attributes recorded per node are those its stored steps touch |
| UpdateWorkflow.DeploymentNodes.UpdateDeploymentNodes | mgmtworker/cloudify_system_workflows/deployment_update/workflow.py:312-364 | first phase in place; it raises if and only if a node is missing or added twice, each node then as it was or written; else new nodes are as planned, and exactly the changed attributes are written, relationship lists with what left the plan behind |
| UpdateWorkflow.InterimIsKept | mgmtworker/cloudify_system_workflows/deployment_update/workflow.py:331-344 | the list between the phases: the plan's first, then every stored entry whose key left the plan, as often as it was stored and in the stored order |
| UpdateWorkflow.DroppedKeepsEveryOccurrence | mgmtworker/cloudify_system_workflows/deployment_update/workflow.py:335-344 | between the phases every stored entry whose key left the plan is kept, as often as it occurred |
| UpdateWorkflow.DeploymentNodes.FinishDeploymentNodes | mgmtworker/cloudify_system_workflows/deployment_update/workflow.py:435-455 | last phase in place: exactly the removed nodes are deleted, lists that changed become the plan's, and everything else stays |
| UpdateWorkflow.ChangesOfNode | mgmtworker/cloudify_system_workflows/deployment_update/workflow.py:121-144 | what the recorded changes of a node say about its fields |
| UpdateWorkflow.PhasesGoThrough | mgmtworker/cloudify_system_workflows/deployment_update/workflow.py:177-192 | from a full list of supported steps no phase raises |
| UpdateWorkflow.UpdateConverges | mgmtworker/cloudify_system_workflows/deployment_update/workflow.py:312-364 | after both phases the stored nodes equal the plan on all compared fields, if and only if all operation changes are visible |
| UpdateWorkflow.HiddenOperationExample | mgmtworker/cloudify_system_workflows/deployment_update/workflow.py:121-144 | a supported update whose both phases change nothing, although an operation differs |
| UpdateWorkflow.RunUpdate | mgmtworker/cloudify_system_workflows/deployment_update/workflow.py:599-605 | the whole update in place refuses unsupported steps with nothing changed, and else converges on the same condition |
| RelationshipOrder.IndexInstances | mgmtworker/cloudify_system_workflows/deployment_update/workflow.py:477-496 | instance entries by key and occurrence number, none lost |
| RelationshipOrder.ReorderInstanceRelationships | mgmtworker/cloudify_system_workflows/deployment_update/workflow.py:499-519 | the reordering with running counters equals the matching of k-th occurrences |
| RelationshipOrder.KeepsTheFirstOfEachKey | mgmtworker/cloudify_system_workflows/deployment_update/workflow.py:499-519 | an entry is kept if and only if it is among the first of its key, as many as the plan has |
| RelationshipOrder.PickedInPlanOrder | mgmtworker/cloudify_system_workflows/deployment_update/workflow.py:499-519 | the kept entries are in plan order, none repeated |
| RelationshipOrder.ReorderedCounts | mgmtworker/cloudify_system_workflows/deployment_update/workflow.py:499-519 | per key the smaller of the two counts is kept |
| RelationshipOrder.ReorderIsIdempotent | mgmtworker/cloudify_system_workflows/deployment_update/workflow.py:499-519 | reordering again changes nothing |
| RelationshipOrder.ReorderIsPermutation | mgmtworker/cloudify_system_workflows/deployment_update/workflow.py:499-519 | where the counts agree, the result is a permutation |
| UpdateInstances.CheckDrift | mgmtworker/cloudify_system_workflows/deployment_update/update_instances.py:63-87 | splits the instances into failed checks and drifted ones |
| UpdateInstances.Escalate | mgmtworker/cloudify_system_workflows/deployment_update/update_instances.py:221-226 | the set to reinstall before healing is one that some order of the drifted instances leads to |
| UpdateInstances.HealAndUpdate | mgmtworker/cloudify_system_workflows/deployment_update/update_instances.py:226-288 | what is updated and what is reinstalled, for any outcome of heals and updates |
| UpdateInstances.UpdateOrReinstall | mgmtworker/cloudify_system_workflows/deployment_update/update_instances.py:178-289 | the outcome is one that some order of the drifted instances leads to, for any answers of checks, heals and updates |
| UpdateInstances.EveryOutcomeIsSound | mgmtworker/cloudify_system_workflows/deployment_update/update_instances.py:178-307 | no skipped instance is touched; updated and reinstalled only after a failed update; every drifted instance ends updated or reinstalled unless reinstalling is off |
| UpdateInstances.UpdatedAreUpdatable | mgmtworker/cloudify_system_workflows/deployment_update/update_instances.py:90-109 | only drifted instances that can be updated are updated |
| UpdateInstances.OrderDoesNotMatter | mgmtworker/cloudify_system_workflows/deployment_update/update_instances.py:221-226 | with transitive containment the set before healing is the same for every order |
| UpdateInstances.OrderMatters | mgmtworker/cloudify_system_workflows/deployment_update/update_instances.py:221-226 | wherever containment is not transitive, two orders of two drifted instances give different sets |
| UpdateInstances.NeverDependsOnOrderIff | mgmtworker/cloudify_system_workflows/deployment_update/update_instances.py:221-226 | the set never depends on the order if and only if containment is transitive |
| Reinstalls.EscalationIsBeforeHealing | mgmtworker/cloudify_system_workflows/deployment_update/update_instances.py:178-226 | before healing, every instance to be reinstalled is forced, or inside of one whose check failed or of a drifted one that cannot be updated; with transitive containment exactly those are |
| Reinstalls.OutcomeIsExplained | mgmtworker/cloudify_system_workflows/deployment_update/update_instances.py:178-307 | the exact outcome, instance by instance; a drifted instance outside of that set is reinstalled only if that is forced, healing asks for it or fails, or its update fails |
| LimitedSizeDicts.InsertForgetsTheOldest | amqp-postgres/amqp_postgres/postgres_publisher.py:362-380 | at most `limit` keys, the newest ones, with their values; the key just inserted stays if and only if the limit is not zero |
| LimitedSizeDicts.LimitedSizeDict.Set | amqp-postgres/amqp_postgres/postgres_publisher.py:373-380 | the eviction in place equals `Insert` and keeps the limit |
| Publisher.FetchIsHonest | amqp-postgres/amqp_postgres/postgres_publisher.py:209-237 | with an append-only table: a cached row is the table's row, a row is formatted for the right execution, and a message is dropped as unknown only if its execution did not exist when the batch started |
| Publisher.SweptIsFaithful | amqp-postgres/amqp_postgres/postgres_publisher.py:132-141 | after the sweep no absence is cached, so the cache is right for the next batch |
| Publisher.StoreKeeps | amqp-postgres/amqp_postgres/postgres_publisher.py:239-257 | a batch, committed or not, keeps both tables in order and acknowledges only what is settled |
| Publisher.StoreEachKeeps | amqp-postgres/amqp_postgres/postgres_publisher.py:259-292 | so does the fallback, one by one, with the rows of each table before the next item's |
| Publisher.EveryRunIsSound | amqp-postgres/amqp_postgres/postgres_publisher.py:175-207 | over every run of batches and restarts, for all answers of the database: rows in the order of deliveries, at most one each; acknowledged deliveries are committed or unstorable; none with an execution is dropped as unknown, and none as refused without a request of its own that the database refused |
| Publisher.AckedIsCommittedOnce | amqp-postgres/amqp_postgres/postgres_publisher.py:239-257 | an acknowledged delivery that is storable has exactly one row |
| Publisher.SurvivedBatchIsAccounted | amqp-postgres/amqp_postgres/postgres_publisher.py:239-292 | after a batch that the publisher survives, each delivery is committed or unstorable, or a request to store its own row, made after the commit of the batch had failed, was refused by the database |
| Publisher.HealthyBatchIsAcked | amqp-postgres/amqp_postgres/postgres_publisher.py:239-257 | if the database answers the batch's own requests, a batch without broken messages is committed and acknowledged as a whole |
| Publisher.FallbackStoresAll | amqp-postgres/amqp_postgres/postgres_publisher.py:259-292 | if the batch failed and the database answers all later requests, every delivery is committed or unstorable, none is reported as refused, and none acknowledged |
| Publisher.SurvivedBatchReports | amqp-postgres/amqp_postgres/postgres_publisher.py:224-229 | in a batch that the publisher survives, every message whose execution is still not there at its end is reported |
| Publisher.LookedUpOnce | amqp-postgres/amqp_postgres/postgres_publisher.py:209-222 | an execution that was looked up is remembered, so the next lookup takes no request |
| Publisher.RestartRecovers | amqp-postgres/amqp_postgres/postgres_publisher.py:143-158 | after a restart the next batch is acknowledged as a whole, if the database answers |
| Publisher.DBLogEventPublisher.GetDbItem | amqp-postgres/amqp_postgres/postgres_publisher.py:209-237 | the lookup through the cache in place, with every failure |
| Publisher.DBLogEventPublisher.Ack | amqp-postgres/amqp_postgres/postgres_publisher.py:255-257 | may only be called for a delivery that is committed or unstorable |
| Publisher.DBLogEventPublisher.Publish | amqp-postgres/amqp_postgres/postgres_publisher.py:184-207 | one round of the loop: batch, rollback, fresh cache and fallback, sweep; keeps everything above |
| SnapshotNames.NamesInOrder | mgmtworker/cloudify_system_workflows/snapshots/snapshot_create.py:281-281 | below 10^8 the order of names is the order of numbers |
| SnapshotNames.NameIsNumbered | mgmtworker/cloudify_system_workflows/snapshots/snapshot_create.py:467-477 | parsing a written name gives its number back |
| SnapshotNames.ComesLastIff | mgmtworker/cloudify_system_workflows/snapshots/snapshot_create.py:467-477 | the last number has the last name exactly below 10^8, or if all its digits but the last are nines |
| SnapshotDump.GroupedBySource | mgmtworker/cloudify_system_workflows/snapshots/snapshot_create.py:243-248 | buckets are in the order their sources are first seen, with exactly the entities of their source |
| SnapshotDump.ItemsOfArePicked | mgmtworker/cloudify_system_workflows/snapshots/snapshot_create.py:243-248 | a bucket has every entity of its source, none twice and in the order of the data |
| SnapshotDump.ChunksConcatenate | mgmtworker/cloudify_system_workflows/snapshots/snapshot_create.py:275-286 | the files of a bucket concatenate to it, none empty or over the limit |
| SnapshotDump.OverwritesIff | mgmtworker/cloudify_system_workflows/snapshots/snapshot_create.py:266-286 | a call overwrites a file if and only if there are 10^8 or more, and not all digits of their number but the last are nines |
| SnapshotDump.OverwriteExample | mgmtworker/cloudify_system_workflows/snapshots/snapshot_create.py:266-286 | a directory of 10^8 files, one of which the next file replaces |
| SnapshotDump.DumpKeepsEveryFile | mgmtworker/cloudify_system_workflows/snapshots/snapshot_create.py:229-287 | any calls writing fewer than 10^8 files keep all of them, numbered in the order they were written |
| SnapshotDump.GetMaxFilenumInDir | mgmtworker/cloudify_system_workflows/snapshots/snapshot_create.py:467-477 | the number of the last name among the dump files, zero if there is none |
| SnapshotDump.SnapshotCreate.WriteFiles | mgmtworker/cloudify_system_workflows/snapshots/snapshot_create.py:229-287 | the loops in place write exactly the chunks of all buckets under the next numbers, and return the ids |
| SnapshotRestore.RestoredIsLatest | mgmtworker/cloudify_system_workflows/snapshots/snapshot_restore.py:1295-1314 | reading files one after the other keeps the latest version per type, source and id, and fails exactly on an unidentified entity |
| SnapshotRestore.CallKeepsLatest | mgmtworker/cloudify_system_workflows/snapshots/snapshot_create.py:243-286 | a call in which no source comes back keeps the latest version of each entity last |
| SnapshotRestore.KeepsLatestIff | mgmtworker/cloudify_system_workflows/snapshots/snapshot_create.py:267-272 | it does so for all entities if and only if no source comes back after another one that reads the same |
| SnapshotRestore.ComingBackExample | mgmtworker/cloudify_system_workflows/snapshots/snapshot_create.py:267-272 | entities with an empty source name, none, and an empty one again |
| SnapshotRestore.ListedInOrderIff | mgmtworker/cloudify_system_workflows/snapshots/snapshot_restore.py:213-221 | sorted names are in the order of writing exactly below 10^8 files |
| SnapshotRestore.RestoreFindsLatest | mgmtworker/cloudify_system_workflows/snapshots/snapshot_restore.py:199-221 | dump and restore: for each type, source and id the version that was dumped last |
| SnapshotRestore.RestoreFailsIff | mgmtworker/cloudify_system_workflows/snapshots/snapshot_restore.py:1295-1314 | the restore fails if and only if some dumped entity lacks the field that identifies it |
| SnapshotRestore.SnapshotRestore.UpdateEntities | mgmtworker/cloudify_system_workflows/snapshots/snapshot_restore.py:1295-1314 | the dictionary updated in place by one file |
| SnapshotRestore.SnapshotRestore.ParseAndRestore | mgmtworker/cloudify_system_workflows/snapshots/snapshot_restore.py:199-221 | all files in the order of their names |
| DictMerge.MergeOne | rest-service/manager_rest/configure_manager.py:40-54 | one pair: the target keeps its dictionary where both have one, else takes the source's item; exactly those pairs are pushed |
| DictMerge.SplitStep | rest-service/manager_rest/configure_manager.py:38-51 | taking a pair and pushing its children keeps every path done, or below exactly one pending pair |
| DictMerge.DictMerge | rest-service/manager_rest/configure_manager.py:33-55 | the worklist ends; every pair at a common path is merged once, and no source changes |
| DictMerge.MergedHolds | rest-service/manager_rest/configure_manager.py:33-55 | merging each pair in place gives the recursive deep merge of the values |
| DictMerge.MergeTrees | rest-service/manager_rest/configure_manager.py:33-55 | on dictionaries that share nothing, the target holds the deep merge, and nothing but paired targets changed |
| DictMerge.MergedTwice | rest-service/manager_rest/configure_manager.py:33-36 | the deep merge of values is idempotent |
| MergedPaths.MappingIff | rest-service/manager_rest/configure_manager.py:33-55 | a dictionary at a path of the merge is the source's, or the target's where the source leaves the way open |
| MergedPaths.ScalarIff | rest-service/manager_rest/configure_manager.py:33-55 | so is a value, unless the source has something at its place |
| DictMerge.MergeTwice | rest-service/manager_rest/configure_manager.py:33-55 | merging the same source again, now shared with the target, leaves every dictionary as it is |

## Left out

- Submits with `force` and switched-off checks are part of the claim about system-wide executions only, not of the one per deployment; `resume_execution` and cancelling a queued execution are not steps of the runs.
- Cascading submits are left out of the claim per deployment, because a component execution that is skipped keeps its placeholder status.
- SchedulerRuns.StepSupervisedIff: a submit whose rows are kept when it is refused has one execution, as all such requests of the code; of a deployment that is not created because its execution failed, the failed row stays in the model.
- Submits that allow overlap, and reports on executions that are not active, are no steps of the runs.
- Concurrency between requests: each request, and each dequeue pass, is one step. Tenants, permissions, audit records and the messages themselves are not modelled.
- Executions.ExecutionStore.PrepareExecutions: rendering, dependency checks and the sending of messages are arbitrary outcomes; the order in which a deployment's components are listed is a parameter.
- LabelGraph.LabelStore.AddToGraph: label values are plain strings, lower-cased on ASCII letters only; deployments not yet flushed to the database are not told apart from stored ones.
- Recalculation.DeploymentStore.RecalcAncestors: locking and the stored columns other than counts and statuses are not modelled; the query's deduplication of rows is that of the object mapper, which keeps the first.
- Cancellation.CancelExecutions: the deployment status written in the second phase, and the messages to remote managers, are not modelled.
- Modification.RollbackUndoesStartIff: the version of a restored instance is a counter of the database and not restored; it is not among the attributes here. The plan of added and removed instances, computed by an unshown library, is a parameter; a plan that the library refuses is no step.
- UpdateWorkflow.UpdateConverges: plugin attributes (their removal yields no step), capabilities, and attributes written at other stages of the update are not compared. The global order of sorted steps is left out: its comparison is a partial order whose incomparability is not transitive.
- Renaming of instance attributes in an update is left out: the code looks them up under a misspelt key and never applies it.
- SchedulerRuns.PassKeepsLimits: passes that cascade add executions that no limit counts, and a queued system execution is started whatever the limits; both are left out.
- UpdateInstances.UpdateOrReinstall: cleaning the drift markers is left out (the `or` there stops after the first entry found), as are the graphs that run the operations; their outcomes are arbitrary.
- Publisher.EveryRunIsSound: exchanges other than the two known ones, several executions with one id, and the batch's timing are left out; batches are arbitrary lists. A redelivered message is a new delivery.
- Publisher.SurvivedBatchIsAccounted: the fallback never acknowledges, which is kept; so it is not claimed that every stored message is acknowledged.
- SnapshotRestore.RestoreFindsLatest: events are left out, because their id is a timestamp with a hash; archives, timestamps, ids handed to the audit listener, and the writing and unpacking of files are not modelled.
- SnapshotDump.GetMaxFilenumInDir: stems with signs, blanks or underscores, which `int` also accepts, read as no number.
- DictMerge.DictMerge: keys are strings, and everything that is no dictionary is a leaf. Dictionaries that contain themselves are left out; others need a finite set of pairs found at the same path.
- REST clients, message transport, SQL text, encryption, cluster status, maintenance mode and configuration loading are wrappers around other systems, and would only add easy members.
