# CloudMark: a verified model

CloudMark is a Controller that drives benchmark Agents through durable task
rows. This project models the parts of it that are more than plumbing and
proves what they promise:

* **The task protocol.** `TaskStore` is the Controller's task table and its
  in-memory map of per-task secrets, one pure function per `Database` method;
  `TaskDatabase.Database` is the class that updates them in place and is proved
  to compute those functions. `WorkerState` and `Agent.AgentWorker` are the
  Agent: pending completions, the four maps of paired services, one iteration of
  `once`. `Orchestrator` is `run_mysql` and the PostgreSQL path of `run_database`
  as a small-step machine, and `RunFlow.RunDriver` the same two runs with their
  flags, loops and nested `try` blocks, proved to take exactly those steps.
  `Protocol` puts all of it into one machine with lost requests and replies,
  cancellation, Controller restarts and any number of runs and Agents;
  `ProtocolProof` holds its inductive invariant and `ProtocolTheorems` what
  follows for every reachable state. `Draining` gives the exact condition under
  which a service can still come up. `Waiting` holds the two polling loops.
* **Network campaigns.** `Campaign` models the contract, the verdict on one attempt
  and the projection of an unordered run history; `CampaignTheorems` relates the
  projection to a reference definition and `CampaignView` states every field of the view
  over the history; `CampaignLoop` closes the loop with the dispatcher of `server.py`,
  which stamps the day the projection used, and `CampaignNumbers` follows its numbers.
* **Counters.** `QueueCounters` and `QueueTheorems` are the stateful ethtool
  normaliser, `QueueSections` what a section of its output adds up to, `QueueDelta` the subtraction of two snapshots, `Rss` the indirection
  table, `NetworkSteps` the loops of `run_network` and the step total announced for
  them.
* **Bounds and evidence.** `Boundaries` walks the cgroup hierarchy for CPU and
  memory, `Percentiles` and `TransactionLog` summarise pgbench logs, `Filesystem`
  and `FilesystemRun` are the bounded small-file workload, `Prices` the canonical
  decimal amount, `Costs` the cost observation and its exporter's contract. `Ordering`
  and `Decimals` are Python's stable sort, filtering, counting and decimal text, `Texts`
  its `split` and `join`.

Results worth knowing before reading the table, each proved with the input or the
exact condition that shows it:

* A claim lost between Controller and Agent, a lost acknowledgement, a cancelled
  run and a restarted Controller can all happen in any order; still no task runs
  twice and no completion gets stuck.
* That a completed stop task means its service is gone needs the wall clock not to
  step back between the two inserts, because tasks are claimed by `created_at`;
  `ClockStepBackLeavesService` is a run where it does, `StopIsFinalIff` says
  exactly when a stop is final, and `StopOvertakesIff` reduces it to the two timestamps
  while both tasks are queued.
* `run_completed_steps` is exact except in the recovery drill of a profile that
  also asks for the checkpoint drill (`ClaimedStepsAreExact`,
  `RecoveryDrillMiscounts`).
* The announced total of a network run is exact if and only if the profile lists
  two directions (or measures nothing per direction), because the code always
  measures both.
* `network._wait_task` treats a cancelled row as if it were still running; the two
  waits agree exactly when no poll shows a cancelled row to a run that is still live
  (`WaitsAgreeUnlessCancelled`, `WaitsDiffer`).
* A pgbench log before the last that is empty or ends in a newline keeps the whole
  from being reported `complete`: the newline that joins the logs leaves an empty
  line, which is an invalid row. `TailEvidence` gives the exact condition, log by log.
* The order of log rows is irrelevant only up to the 20,000 rows the parser considers.
* After an additive overflow a field is stored again if and only if an exact line
  for it follows; `OverflowedFieldReturns` is such an input.
* The two cgroup walks disagree on a path with a `.` or `..` component: the CPU walk
  refuses it, the memory walk forgets it. They also disagree when legacy lines give
  them paths of which one is too deep. `WalksAgreeIff` is the exact condition on the two
  selected paths. Preflight runs the CPU walk first for both suites, so under the
  unified hierarchy a dotted path is refused (`UnifiedDottedIsRefused`); with legacy
  lines that give the CPU another, clean path a memory run is accepted on the host's
  memory alone (`LegacyDottedPathAdmits`, `LimitsIgnoredIff`).
* `update_run` has no terminal guard; runs stay ended because one thread owns each.

Every bound variable ranges over all inputs. Outside events (tools, sockets,
storage errors, cancellation, timeouts) are nondeterministic.

## Model

| member | source | states |
|---|---|---|
| TaskStore.ApplyFacts | cloudmark/database.py:623-839 | every store method keeps the table invariant (secrets held exactly for live tasks, completed or failed rows were claimed, insertion orders distinct) and only moves rows forward |
| TaskStore.EveryRunEvolves | cloudmark/database.py:669-839 | over any sequence of store calls: ranks never fall, terminal rows are frozen, identities never change, issued secrets stay known |
| TaskStore.ClaimedAtMostOnce | cloudmark/database.py:669-698 | whatever else is called, one row is claimed at most once |
| TaskStore.ClaimDeliversIssuedSecret | cloudmark/database.py:669-698 | a claim hands over exactly the secret the task was created with, or none if it had none |
| TaskStore.NonEmptyQueueIsClaimable | cloudmark/database.py:669-682 | an Agent has an oldest queued row exactly when it has any queued row |
| TaskStore.DisciplineKept | cloudmark/database.py:669-688 | no store call lets a claimed row have overtaken a row still queued ahead of it |
| TaskStore.ResultIsLastSupplied | cloudmark/database.py:700-775 | over any sequence of calls a row's result is the last non-null one that a progress or finish call of its own Agent supplied while the row was running |
| TaskDatabase.Database.CreateAgentTask | cloudmark/database.py:623-659 | refuses secrets outside the bounds and duplicate ids without a change; otherwise inserts exactly one queued row, field by field, and its secret |
| TaskDatabase.Database.ClaimAgentTask | cloudmark/database.py:669-698 | answers null only for an empty queue; otherwise marks an oldest queued row running and returns it with its secret |
| TaskDatabase.Database.FinishAgentTask | cloudmark/database.py:700-737 | a running row of that Agent takes the given status and error and the given result, or keeps its own when none is given; every other row stays; true also for terminal rows of the Agent, and then the secret goes |
| TaskDatabase.Database.UpdateAgentTaskProgress | cloudmark/database.py:739-775 | a running row of that Agent takes the clamped meter and the given result, or keeps its own when none is given; nothing else changes |
| TaskDatabase.Database.AbortAgentTask | cloudmark/database.py:777-790 | cancels a live row and drops its secret; answers false and changes nothing otherwise |
| TaskDatabase.Database.CancelQueuedRunTasks | cloudmark/database.py:820-839 | cancels exactly the queued rows of the run and drops exactly their secrets; answers their number |
| TaskDatabase.Database.RecoverIncompleteRuns | cloudmark/database.py:316-338 | cancels every live row and empties the secret map |
| WorkerState.TotalAfter | cloudmark/agent.py:2122-2124 | no task outcome brings the four maps of paired services above one entry |
| Agent.AgentWorker.Sweep | cloudmark/agent.py:4287-4301 | the sweep of one map only removes: what remains was there with the same deadline and is within it, what is gone was past it or contact had expired, and nothing remains once contact has expired |
| Agent.AgentWorker.CleanupExpired | cloudmark/agent.py:4275-4301 | after the sweep every service is within its deadline and none is left when the Controller has been silent too long |
| Agent.AgentWorker.StartService | cloudmark/agent.py:2122-2124 | refuses when any of the four maps is occupied, otherwise adds exactly one entry |
| Agent.AgentWorker.StopService | cloudmark/agent.py:2100-2120 | removes exactly the named entry unless ending the process or removing its files breaks, and then nothing; an absent one is no error |
| Agent.AgentWorker.Once | cloudmark/agent.py:4303-4337 | one iteration, with its early returns for a pending completion and an unanswered heartbeat and with any steps of the Controller, of runs, of other Agents and of its own progress reports while the task runs, takes a legal sequence of protocol steps and no others |
| Orchestrator.EndedRunCleansUp | cloudmark/mysql_benchmark.py:225-396 | however a run ends: one stop task per start task, naming it and created last, and one client cleanup just before it if and only if the dataset was confirmed |
| Orchestrator.ClaimedStepsAreExact | cloudmark/database_benchmark.py:472-636 | the dispatched `run_completed_steps` equals the steps completed and is below the total, except for the recovery drill combined with the checkpoint drill |
| Orchestrator.RecoveryDrillMiscounts | cloudmark/database_benchmark.py:592-612 | an undisturbed run with both drills, for any number of jobs, dispatches its recovery drill two steps short |
| Orchestrator.PreparedIffConfirmed | cloudmark/mysql_benchmark.py:272-274 | the `prepared` flag is up exactly when the prepare task came back with valid evidence |
| Orchestrator.PlanShape | cloudmark/database_benchmark.py:358-371 | the announced total is the number of stages; the start stage is first, the stop stage last, preparation and cleanup only for MySQL |
| Orchestrator.CleanupWaitsAreShielded | cloudmark/mysql_benchmark.py:333-390 | however a run got to its wait: no cancellation or timeout of the run ends it, over any event sequence, exactly when the task waited for is a cleanup or a stop task |
| Orchestrator.AnswerDecides | cloudmark/mysql_benchmark.py:270-309 | over any event list: an answer without evidence leaves the undisturbed path exactly at the preparation, the measurements, the baseline and the recovery; every other answer completes the step |
| Orchestrator.CheckedBeforeCreation | cloudmark/mysql_benchmark.py:225-300 | a cancellation check comes before a task is created everywhere for PostgreSQL, and before the start and the measurements for MySQL |
| Orchestrator.OnlyStopsClaimNothing | cloudmark/mysql_benchmark.py:339-346 | every task but a stop task is dispatched with a step count |
| RunFlow.RunDriver.RunMySql | cloudmark/mysql_benchmark.py:220-396 | flags, loop and `except` block take exactly the machine's steps; both endings are cleaned up; a return completed jobs + 4 steps |
| RunFlow.RunDriver.RunDatabase | cloudmark/database_benchmark.py:470-657 | the same for PostgreSQL with optional drills, with `cleanup_scheduled` set after the stop task is created |
| RunFlow.RunDriver.CreateTask | cloudmark/mysql_benchmark.py:226-265 | a task may only be created where the machine creates it, with the step count the machine claims |
| RunFlow.RunDriver.CompleteStep | cloudmark/runner.py:100-108 | the saturating counter equals the machine's count at every step |
| ProtocolProof.NextInv | cloudmark/agent.py:4303-4337 | every step of Controller, Agents, runs, losses and restarts keeps the invariant that links rows, secrets, pending completions, services and run flags |
| ProtocolProof.OneCall | cloudmark/database.py:623-839 | in every state of the invariant a step writes the task table by exactly the one `Database` call it stands for, or not at all |
| ProtocolTheorems.TasksRunAtMostOnce | cloudmark/agent.py:4310-4337 | in every reachable state no task has been executed twice, on any Agent |
| ProtocolTheorems.TaskRowsOnlyAdvance | cloudmark/database.py:700-839 | from any reachable state on, a row's rank never falls and a terminal row never changes |
| ProtocolTheorems.CompletionsNeverStick | cloudmark/agent.py:4305-4309 | a worker holds at most one unacknowledged completion; the Controller accepts it in every reachable state, and a post that gets through leaves the row terminal |
| ProtocolTheorems.SecretsLiveWithTheirTasks | cloudmark/database.py:658-659 | in every reachable state a secret is held for exactly the live tasks created with one |
| ProtocolTheorems.WorkersReceiveIssuedSecrets | cloudmark/database.py:695-698 | an executing worker has exactly the secret its task was created with |
| ProtocolTheorems.WorkOutcome | cloudmark/agent.py:4315-4336 | from any reachable state: once the post arrives for a row still running, the row has what the handler returned: its result, or failed or cancelled with its error, or failed for a refused start, and after a crash nothing |
| ProtocolTheorems.WorkServices | cloudmark/agent.py:2100-2124 | a successful start leaves exactly its service with its deadline, a stop removes the one it names, and no other map changes |
| ProtocolTheorems.SweepServices | cloudmark/agent.py:4275-4301 | a sweep drops only services past their deadline, or any after more than 20 seconds without contact, and moves no deadline |
| ProtocolTheorems.ContactIsRenewed | cloudmark/agent.py:1447-1455 | in every reachable state exactly an answered heartbeat, a delivered task and an accepted completion renew the contact time |
| ProtocolTheorems.RunSeesItsTask | cloudmark/distributed.py:79-99 | in every reachable state a waiting run takes an answer exactly when its row is completed, with the evidence in the row, and an error exactly until then |
| ProtocolTheorems.AtMostOnePairedService | cloudmark/agent.py:3024-3026 | at most one PostgreSQL, Redis, MySQL or web service over the four maps of any worker, always |
| ProtocolTheorems.CompletedStopIsFinal | cloudmark/agent.py:3002-3022 | once a stop task has completed, its service is not active in any later state, if the start was inserted first and with an earlier timestamp |
| ProtocolTheorems.ReturnedRunLeavesNothing | cloudmark/mysql_benchmark.py:314-349 | a run that returned has only completed tasks, no secret and no active service, whatever the clock did |
| ProtocolTheorems.ReturnedRunTasks | cloudmark/mysql_benchmark.py:225-349 | a run that returned created exactly the tasks of its suite, in order, each with its work, on the right Agent, with the run's secret where one is due, and every row is completed |
| ProtocolTheorems.ReturnedRunHasEvidence | cloudmark/mysql_benchmark.py:272-309 | in every reachable state the preparation, measurement, baseline and recovery rows of a returned run hold valid evidence |
| ProtocolTheorems.RaisedRunDrains | cloudmark/mysql_benchmark.py:350-396 | a run that re-raised created a stop task naming its start task on the target; once completed the service is gone |
| ProtocolTheorems.EndedRunRows | cloudmark/mysql_benchmark.py:338-389 | in the table itself: one stop row for the start row, on the same Agent, and a cleanup row iff the dataset was prepared |
| ProtocolTheorems.RestartEndsEverything | cloudmark/database.py:316-338 | after a restart no task row is live, no secret is held, and every run that had not ended is lost |
| ProtocolTheorems.FinishedRunsRest | cloudmark/database.py:316-338 | a run that has returned, raised or been lost is never driven again, over any continuation |
| ProtocolTheorems.ClockStepBackLeavesService | cloudmark/database.py:672-680 | a reachable run in which a stop task completes and the service it names is active, because the clock stepped back |
| Draining.ServiceMayRunIff | cloudmark/agent.py:4303-4337 | from any reachable state some continuation has the service active exactly when it is active, being started with nothing in its way, or its task is queued for an Agent that is not dead |
| Draining.StopIsFinalIff | cloudmark/database.py:669-698 | a completed stop task is final exactly when its start task can no longer run, which is so whenever the start was inserted first with an earlier timestamp |
| Draining.StopOvertakesIff | cloudmark/database.py:669-680 | while a start task and its stop task are both queued for an Agent that is not dead, some continuation completes the stop task and has the service active exactly when the start task does not carry the earlier timestamp |
| Waiting.WaitTask | cloudmark/distributed.py:79-99 | ends within the polls a quarter-second sleep allows, at the first poll that shows a stopped run, a missing, completed, failed or cancelled row, or the timeout, and says which; a completed row is returned |
| Waiting.WaitNetworkTask | cloudmark/network.py:280-293 | the same for the network wait, which takes a cancelled row for a live one |
| Waiting.WaitsAgreeUnlessCancelled | cloudmark/network.py:287-292 | on the same observations both waits end alike exactly when no poll shows a cancelled row to a run that is still live, unstopped and within its timeout |
| Waiting.WaitsDiffer | cloudmark/network.py:287-292 | observations on which the distributed wait ends at once and the network wait at its timeout |
| Waiting.CancelledTaskWaitsOut | cloudmark/network.py:287-292 | a cancelled task holds the network wait until the run is stopped or the timeout has passed |
| Campaign.ContractPinsSession | cloudmark/campaigns.py:82-109 | a built contract is matched by exactly the sessions with the same id, the same scope, source and evidence up to their defaults, and the same pair of Agents, in any order and with any bystanders |
| CampaignView.ContractBuiltIff | cloudmark/campaigns.py:44-79 | a contract is built exactly for the standard profile, 3 to 30 windows and one Agent in each role, and says so |
| Campaign.AttemptsOf | cloudmark/campaigns.py:156-160 | the comprehension keeps exactly this campaign's runs, in order |
| Campaign.Scan | cloudmark/campaigns.py:166-188 | the loop over sorted attempts computes first window per day, last active run, failures and one summary each |
| Campaign.ProjectNetworkCampaign | cloudmark/campaigns.py:146-267 | the method computes the projection function the theorems are about |
| CampaignView.ProgressIsExact | cloudmark/campaigns.py:186-203 | with n the stored target, or 3: completed exactly when n distinct days are valid or the stored status says so, superseded and other statuses likewise; remaining windows, next window and attempt number and failed attempts in terms of the history |
| CampaignView.GateIsFirstObstacle | cloudmark/campaigns.py:204-242 | the reason given is the first of the nine obstacles, each stated over the history, the clock and the session |
| CampaignView.AttemptsAreListed | cloudmark/campaigns.py:161-185 | one summary per attempt in the order of start, end or id, each field that of its attempt |
| CampaignView.ActiveIsLast | cloudmark/campaigns.py:173-174 | the active run is the last attempt that is queued or running |
| CampaignView.ReasonIsFirstFault | cloudmark/campaigns.py:121-143 | the reason of an attempt names the first of its nine faults, and without one it is valid |
| CampaignView.CalendarDayIff | cloudmark/campaigns.py:112-118 | the accepted day texts are exactly the dates of the years 1000 to 9999, written with four, two and two digits |
| CampaignView.MonthsFillTheYear | cloudmark/campaigns.py:112-118 | months add up to 366 days in Gregorian leap years and 365 otherwise |
| CampaignTheorems.WindowsAreEarliest | cloudmark/campaigns.py:161-171 | the reported windows are exactly the earliest valid run of each day that has one (ties by position), listed by day without repetition |
| CampaignTheorems.WindowsCountDays | cloudmark/campaigns.py:189-190 | `valid_windows` is the number of distinct days with a valid attempt |
| CampaignTheorems.OrderOfRunsIsIrrelevant | cloudmark/campaigns.py:156-236 | permuting the history changes no day, count or status, and no dispatch decision when live attempts have ids |
| CampaignTheorems.DistinctKeysFixTheView | cloudmark/campaigns.py:161 | when no two attempts share a sort key the whole projection is independent of listing order |
| CampaignTheorems.MoreRunsMoreDays | cloudmark/campaigns.py:166-171 | adding runs never removes a day or lowers the count |
| CampaignTheorems.InvalidRunsChangeNothing | cloudmark/campaigns.py:167-171 | a foreign or invalid run anywhere changes no day and no reported run id |
| CampaignTheorems.CompletedIsAbsorbing | cloudmark/campaigns.py:197-209 | once completed, every later projection is completed and ineligible, whatever the clock, session or profile |
| CampaignTheorems.DispatchAllowedIff | cloudmark/campaigns.py:204-238 | a window may be dispatched exactly when the campaign is active and current, has fewer distinct valid days than its stored target (3 when there is none), is idle and free today, and its pair is ready |
| CampaignLoop.NextInv | cloudmark/server.py:296-341 | dispatch, other submissions, thread progress, endings and restarts keep the closed-loop invariant |
| CampaignLoop.OneWindowPerDay | cloudmark/server.py:302-341 | always: at most one live attempt, at most one valid run per UTC day, as many valid runs as the view reports, and valid and live runs together never above the stored target (3 when there is none) |
| CampaignLoop.EndedRunsStay | cloudmark/database.py:220-265 | although `update_run` is unguarded, no reachable step changes a run that has ended |
| CampaignLoop.RestartFailsLiveRuns | cloudmark/database.py:316-328 | a restart fails every queued or running run and touches no other |
| CampaignNumbers.WindowsAreNumbered | cloudmark/server.py:325-336 | always: attempts are numbered 1, 2, 3 ... in order of dispatch, valid runs carry the windows 1, 2, 3 ..., a live attempt works on the next one, and every attempt was dispatched under the contract with both confirmations |
| NetworkSteps.TotalIsExact | cloudmark/network.py:425-438 | the announced total equals the measured plan if and only if two directions are listed or nothing is measured per direction |
| NetworkSteps.PlanIs | cloudmark/network.py:1504-1635 | path evidence and latency before the loads, the second path evidence after them, generator to target first |
| NetworkSteps.LoadsAre | cloudmark/network.py:1540-1610 | every stream count forward, then backward, then the UDP rates in the same way, then both directions at once |
| NetworkSteps.NetworkRun.Execute | cloudmark/network.py:1504-1635 | a return has recorded exactly the plan and completed one step per entry; an exception leaves prefixes; UDP needs a TCP baseline in both directions |
| NetworkSteps.NetworkRun.MeasureTcp | cloudmark/network.py:1540-1559 | the nested loops measure every stream count in both directions, ports taken in turn |
| NetworkSteps.NetworkRun.MeasureUdp | cloudmark/network.py:1560-1597 | a direction without a positive TCP rate raises before any of its rates is tried |
| NetworkSteps.PortsAreBounded | cloudmark/network.py:1551 | ports stay in range and any ten consecutive measurements use different ports |
| NetworkSteps.MeasureProfile | cloudmark/network.py:1504-1635 | a completed run calls `complete_step` as often as announced exactly under that condition |
| NetworkSteps.JobContext.CompleteStep | cloudmark/runner.py:100-108 | the counter is the number of calls, capped at the total |
| QueueCounters.Normaliser.Feed | cloudmark/agent.py:735-811 | one line with all its early exits updates section, counters and tallies as specified |
| QueueCounters.Normaliser.Store | cloudmark/agent.py:785-811 | additive and exact fields and duplicates of one classified statistic |
| QueueCounters.Normaliser.StoreComponent | cloudmark/agent.py:787-806 | the additive branch: repeated or mixed sources are duplicates, an overflow drops the field |
| QueueCounters.ParseQueueStatistics | cloudmark/agent.py:722-852 | the bounded loop computes the fold over at most 4096 lines; observed exactly when some queue was seen and nothing was a duplicate, invalid or cut off |
| QueueCounters.DecimalPassesIffItFits | cloudmark/agent.py:746-756 | written in decimal, exactly the values up to 2^64-1 pass the digit cut and the bound |
| QueueSections.SectionAddsUp | cloudmark/agent.py:771-806 | from the lines alone, in any order: after the marker of a queue, a packet or byte counter is the sum of its unicast, multicast and broadcast lines when each occurs at most once and the sum fits |
| QueueSections.SectionGives | cloudmark/agent.py:771-811 | after the marker, an error or drop counter is the value of its first line |
| QueueSections.GivenStep | cloudmark/agent.py:807-811 | a second line for an error or drop counter is a duplicate and changes no counter |
| QueueSections.RepeatedComponent | cloudmark/agent.py:793-797 | a component line that occurs again is a duplicate and changes no counter |
| QueueSections.DistinctSectionIsClean | cloudmark/agent.py:771-811 | a section of distinct lines whose sums fit has no duplicate and nothing invalid |
| QueueSections.ForeignStep | cloudmark/agent.py:772-778 | a line of the other direction, or of no table, is unclassified and changes no counter |
| QueueSections.NothingAfterBadMarker | cloudmark/agent.py:739-768 | after a marker with a malformed, oversized or out-of-range number every line is unclassified |
| QueueSections.DriverLine | cloudmark/agent.py:770-783 | a line a driver pattern knows counts for the queue and field the pattern names, in any section |
| QueueTheorems.CountersHaveSources | cloudmark/agent.py:785-811 | every stored counter fits 64 bits and is one exact line's value or the sum of component lines with pairwise distinct names, never a mix |
| QueueTheorems.ObservedIsConserved | cloudmark/agent.py:812-852 | an `observed` snapshot's counters add up to all classified lines; no snapshot exceeds them |
| QueueTheorems.EveryNumericLineCounts | cloudmark/agent.py:741-757 | every numeric line is counted once, and invalid values are the oversized lines plus the overflowed fields |
| QueueTheorems.OverflowedFieldReturnsIff | cloudmark/agent.py:735-811 | over any lines: a field dropped by an additive overflow is in the result exactly when an exact line for it follows the one that dropped it, with the first such line's value |
| QueueTheorems.OverflowedFieldReturns | cloudmark/agent.py:785-811 | three lines, whatever their values: two components whose sum overflows drop the field, and the exact line that follows brings it back with its own value |
| QueueDelta.QueueMap | cloudmark/network.py:708-724 | the dictionary holds for each queue the values of its last row that has any: present and not negative |
| QueueDelta.QueueRow | cloudmark/network.py:740-766 | one queue: before + delta = after on the common fields that did not fall; the resets are exactly those that did |
| QueueDelta.QueueCounterDelta | cloudmark/network.py:681-815 | the rows and resets of all common queues; complete exactly when both snapshots are observed and aligned and nothing decreased |
| QueueDelta.WindowsTelescope | cloudmark/network.py:732-769 | two complete deltas that meet give a complete delta, which is their sum on every field of every queue, and nothing else |
| QueueDelta.ReportsShown | cloudmark/network.py:748-757 | a value is reported for a field exactly when it is the non-negative difference of what the rows of the two snapshots show |
| QueueDelta.NamesAreSorted | cloudmark/network.py:738 | the eight accepted fields in the order in which their names sort |
| QueueDelta.UsableIff | cloudmark/network.py:699-731 | two snapshots are subtracted exactly when both were observed, dated, and show a queue in common |
| QueueDelta.ReportsDifference | cloudmark/network.py:748-757 | a value is reported for a field exactly when it is the non-negative difference of the two snapshots |
| QueueDelta.CounterDistribution | cloudmark/network.py:781-797 | the total is the sum of the listed values and the busiest queue the first that attains the maximum |
| QueueDelta.BusiestShare | cloudmark/network.py:788-796 | the busiest queue's share lies between an equal share of the active queues and everything |
| QueueDelta.InterfaceDelta | cloudmark/network.py:1311-1328 | observed exactly when all eight fields are present and none decreased; then every field adds up |
| Rss.ParseTable | cloudmark/agent.py:898-938 | the kept entries are the first 4096 in-range entries of the table, flagged exactly when something was left out |
| Rss.UnflaggedTableIsWhole | cloudmark/agent.py:920-932 | the kept entries are all the listed entries exactly when nothing was dropped |
| Rss.SectionIsLastHeader | cloudmark/agent.py:898-912 | a line belongs to the table, or to the hash functions, exactly when the last header before it opened that part |
| Rss.HashIsLastSwitch | cloudmark/agent.py:933-938 | a hash function is reported as its last line says |
| Rss.QueueDistribution | cloudmark/agent.py:950-973 | counts per queue ascending, without repetition, adding up to the table; the busiest attains the maximum and at least an equal share |
| Boundaries.SelectGroup | cloudmark/compute.py:118-135 | the first unified line decides, otherwise the last line that names the controller |
| Boundaries.SelectsOne | cloudmark/compute.py:122-135 | that rule fixes one choice |
| Boundaries.PlaceMeans | cloudmark/compute.py:136-150 | a selected path stands for its non-empty components in order, refused with a dot component or with more than 32 |
| Boundaries.CpuQuotaBoundary | cloudmark/compute.py:111-195 | the limiting quota is the least ratio over all readable finite ancestors, the deepest on ties; verified exactly when no level is malformed and the path is trusted |
| Boundaries.LogicalCpuBoundary | cloudmark/compute.py:57-90 | the effective count is at least one and is the minimum of host, affinity and the whole threads of every finite quota |
| Boundaries.SystemPreflight | cloudmark/compute.py:310-361 | accepted exactly when the CPU walk is verified, the tool is there and, for memory, the platform is Linux, no memory level is malformed, the path is not too deep and undotted, and allocation plus 512 MiB fits; each refusal has its exact condition, the CPU walk first |
| Boundaries.JobThreads | cloudmark/compute.py:545-558 | a job has a thread count only after preflight accepted its suite, and it lies between one and every bound |
| Boundaries.ResolveThreads | cloudmark/compute.py:382-390 | `all`, `half` (rounded up) and a number stay in range; only a number out of range is refused |
| Boundaries.WrittenQuotaReadsBack | cloudmark/compute.py:152-184 | numbers written to either version's control files are read back exactly; zero is malformed, `max` and `-1` unlimited |
| Boundaries.LevelsAreAncestors | cloudmark/compute.py:146-150 | the levels walked are the group itself and parent after parent up to the root |
| Boundaries.QuotaReadIff | cloudmark/compute.py:152-184 | exactly which files mean a finite quota, no quota and an absent level |
| Boundaries.MemoryReadIff | cloudmark/compute.py:102-108 | exactly which files mean a finite limit with its usage, no limit and an absent level |
| Boundaries.WrittenMemoryReadsBack | cloudmark/compute.py:102-108 | limits and usages are read back exactly up to each version's threshold for no limit |
| Boundaries.MemoryAllocationBoundary | cloudmark/compute.py:198-280 | the limiting ancestor attains the least headroom over all readable finite limits |
| Boundaries.LimitingIsLeast | cloudmark/compute.py:248-254 | among levels with the least headroom the limiting one has the least limit, and among equals lies deepest |
| Boundaries.AdmitMemory | cloudmark/compute.py:345-361 | the allocation test alone, which preflight reaches only behind a verified CPU walk: passed exactly when no memory level is malformed, the path is not both too deep and undotted, and allocation plus 512 MiB fits the host, when known, and every finite ancestor |
| Boundaries.ThreadsAreLeast | cloudmark/compute.py:192 | the threads a quota allows are the least positive whole number not below its ratio |
| Boundaries.WalksAgreeIff | cloudmark/compute.py:137-141 | both walks trust or both refuse their selected paths exactly when the CPU path is dotted or too deep just in case the memory path is too deep and not dotted |
| Boundaries.SharedPathAgreesIff | cloudmark/compute.py:139-141 | with one selected path for both they agree exactly when it is not dotted |
| Boundaries.UnifiedSharesPath | cloudmark/compute.py:130-133 | a unified line anywhere gives both walks the same path |
| Boundaries.DottedLinesDisagree | cloudmark/compute.py:139-141 | for the single line `0::/a/../b` the CPU walk refuses and the memory walk does not |
| Boundaries.DeepLinesDisagree | cloudmark/compute.py:134-138 | two legacy lines without a dotted component on which the walks differ, the CPU group being too deep |
| Boundaries.DottedMemoryPathAdmits | cloudmark/compute.py:322-361 | behind a dotted memory path a memory run is accepted exactly when the CPU walk is verified and it fits the host, or the host is unknown |
| Boundaries.LimitsIgnoredIff | cloudmark/compute.py:322-361 | a run that fits the host is accepted whatever the memory control files say exactly when the CPU walk is verified and no memory group, or a dotted path to one, is selected |
| Boundaries.UnifiedDottedIsRefused | cloudmark/compute.py:322-324 | with a unified line a dotted path makes preflight refuse either suite |
| Boundaries.LegacyDottedPathAdmits | cloudmark/compute.py:322-361 | at the lines `4:cpu:/a` and `5:memory:/x/../y` a memory run is accepted exactly when it fits the host, whatever the memory files say |
| Percentiles.PercentileIsOrderStatistic | cloudmark/database_benchmark.py:107-111 | at least ceil(p n) samples are at most the value and fewer are below it |
| Percentiles.RankIsCeiling | cloudmark/database_benchmark.py:110 | the rank is the ceiling of the exact product |
| Percentiles.OrderStatisticIsUnique | cloudmark/database_benchmark.py:107-111 | those two counts determine the value |
| Percentiles.PercentileMonotone | cloudmark/filesystem_benchmark.py:50-62 | a higher percentile is never smaller |
| Percentiles.PercentileIgnoresOrder | cloudmark/database_benchmark.py:107-111 | permuting the samples does not change a percentile |
| Percentiles.SummaryIsOrdered | cloudmark/filesystem_benchmark.py:47-62 | minimum, percentiles and maximum are in order and bound every sample |
| Percentiles.SummaryIgnoresOrder | cloudmark/database_benchmark.py:107-130 | the summary is the same for every order of the samples |
| Percentiles.SummaryNamesPercentiles | cloudmark/database_benchmark.py:107-130 | the four percentiles of the summary are the nearest ranks of 50, 95, 99 and 99.9 per cent, stated by counting samples |
| TransactionLog.ReadLogs | cloudmark/agent.py:2002-2028 | never more than the byte budget, always a prefix of the readable bytes, and flagged exactly when a file was unreadable or found the budget spent |
| TransactionLog.ParseLatencyLog | cloudmark/database_benchmark.py:73-136 | samples plus invalid rows are the lines considered; complete exactly when nothing is truncated and every line is a valid row of the expected number |
| TransactionLog.RowIsValidIff | cloudmark/database_benchmark.py:84-104 | a line is a row exactly with three words, two numbers and a finite latency of at most an hour, which counts in milliseconds |
| TransactionLog.WrittenRowReadsBack | cloudmark/database_benchmark.py:84-104 | client, transaction and microseconds separated by spaces are read back as that latency |
| TransactionLog.RowOrderIsIrrelevant | cloudmark/database_benchmark.py:79-136 | permuting the rows of a log of at most 20,000 lines leaves samples, invalid rows, status and summary unchanged |
| TransactionLog.RowOrderMattersBeyondTheCut | cloudmark/database_benchmark.py:82 | with one line more, moving an empty line from the end to the front changes the number of samples |
| TransactionLog.SeveralLogsAreNeverComplete | cloudmark/agent.py:2030-2034 | a log before the last that is empty or ends in a newline leaves an empty line, so the whole is never complete |
| TransactionLog.JoinedExactIff | cloudmark/agent.py:2030-2034 | the joined text is exact exactly when the logs are, one by one: none before the last is empty or ends in a newline, every line is a valid row, and the line counts add up to the transactions within the limit |
| TransactionLog.TailEvidence | cloudmark/agent.py:2002-2034 | complete exactly when every log was read whole and the logs are exact one by one |
| Filesystem.Preflight | cloudmark/filesystem_benchmark.py:65-98 | accepted exactly for bounded shapes whose payload fits the allowance and leaves the reserve free |
| Filesystem.ContentSize | cloudmark/filesystem_benchmark.py:39-44 | the deterministic payload has exactly the requested size |
| Filesystem.ContentIsBlocks | cloudmark/filesystem_benchmark.py:39-44 | the payload is the digest blocks of its index one after the other, the last one cut |
| Filesystem.DirectoriesShareEvenly | cloudmark/filesystem_benchmark.py:241-246 | each directory receives exactly file_count / directory_count files |
| Filesystem.NoCollision | cloudmark/filesystem_benchmark.py:246-319 | no two files of the workload ever share a path, before, during or after the renames |
| FilesystemRun.Workspace.Execute | cloudmark/filesystem_benchmark.py:240-389 | raises only for residual state or an outside event, never for a collision of its own paths; returns only when the root is gone, all eight steps are completed, every file had the declared size and every file read back its payload |
| FilesystemRun.Workspace.SmallPhases | cloudmark/filesystem_benchmark.py:255-316 | create, stat, verify, rename and delete leave no file behind, and pass only when every size and every content read was right |
| FilesystemRun.Workspace.CreateAll | cloudmark/filesystem_benchmark.py:255-266 | after the phase exactly the declared files exist, each with its own payload |
| FilesystemRun.LiveFitsAllowance | cloudmark/filesystem_benchmark.py:87-92 | the payload alive at any moment fits the allowance preflight accepted |
| Prices.PriceIsCanonical | cloudmark/cost.py:168-178 | normalising keeps the value and is idempotent; two accepted amounts are stored alike exactly when they denote the same price |
| Prices.FormatReadsBack | cloudmark/cost.py:177-178 | formatting and reading back is exact for every value of up to twelve whole digits |
| Prices.AcceptedIff | cloudmark/cost.py:21-22 | accepted are exactly one to twelve digits, with one to six more after a point or without one |
| Prices.FormatIsShort | cloudmark/cost.py:177-178 | the stored text has no leading zero but before a point and no zero or point at its end |
| Costs.BuiltIsExportable | cloudmark/cost.py:256-340 | whatever the request, an observation that is built passes the exporter's contract |
| Costs.BuiltSays | cloudmark/cost.py:256-340 | what a built observation says in terms of the request: keys, constants, currency, unit, commitment, tax, source, and an HTTPS reference without blanks for a public URL |
| Costs.BuiltAmount | cloudmark/cost.py:168-178 | the stored amount is positive and denotes the requested price |
| Costs.BuiltWhenInOrder | cloudmark/cost.py:256-340 | a request whose parts are in order is never refused |
| Costs.ExportableIffBuilt | cloudmark/cost.py:90-116 | and the exporter accepts exactly the observations some request builds, for the selected target and a time that reads back |
| Costs.ReferenceIsNormalIff | cloudmark/cost.py:157-165 | a text is stored unchanged exactly when its words are separated by single spaces, it has no control character and it fits the byte limit |
| Costs.BytesAreUtf8 | cloudmark/cost.py:163 | the length that is limited is that of the UTF-8 encoding, character by character |
| Costs.Utf8ReadsBack | cloudmark/cost.py:163 | the encoding whose bytes are counted reads back as the character |
| Texts.StripIs | cloudmark/cost.py:301-310 | stripping removes blanks at both ends and nothing else |

## Left out

- ProtocolTheorems.CompletedStopIsFinal: assumes the start row was inserted first and carries an earlier timestamp; without that it is false, as ClockStepBackLeavesService shows, and Draining.StopIsFinalIff gives the exact condition.
- ProtocolTheorems.RaisedRunDrains: needs the same order of timestamps; that the stop task is eventually claimed is not promised by the code, because an Agent may never come back.
- Agent.AgentWorker.CleanupExpired: the stops of the sweep are taken to succeed; in the protocol machine any of them may fail.
- Agent.AgentWorker.Once: another Agent's claim during the work is covered when the head of its queue is not tied, and a progress report does not renew the contact time.
- Costs.Build: upper-casing, the URL check, the time normaliser and the target's identity are parameters.
- Filesystem.Preflight: five per cent of the disk is an exact rational, where the code rounds a float down.
- Percentiles.PercentileIsOrderStatistic: percentiles are exact thousandths of exact values; the six-digit rounding of reported numbers and floating-point products are not modelled.
- QueueDelta.CounterDistribution: shares are stated as exact products, not as rounded percentages.
- TransactionLog.ReadLogs: bytes are characters, and the newline is the only line break.
- Boundaries.CpuQuotaBoundary: the ratio is a real number where the code divides floats; its six-digit rounding for display is left out.
- Campaign.Scan: absent text and empty text are the same; years before 1000, whose unpadded form depends on the platform, are not calendar days.
- Identifiers of tasks, runs and Agents are natural numbers, result documents are opaque, and error messages are tags.
- SQLite, locks and threads: each `Database` method is one atomic step; foreign keys, WAL and JSON encoding are not modelled.
- The rest of the Controller's tables, sessions, pairing and the heartbeat columns, and `has_active_agent_task`, which would add only easy members.
- The Redis and web runs, and the iperf server map of the Agent, which follow the same start/stop scheme as the modelled services.
- The driver patterns of `_queue_stat_identity`, and all text scraping of tool output (ping, sysbench, pgbench summaries, dig, tracepath, nvidia-smi): lines arrive tokenised.
- `round`, percentages and derived rates, UDP target rates, and the reason codes of the analyses, which can be read off one branch each.
- Environment collectors, bootstrap, profiles as data, the storage campaigns, the dashboard and the exporters' CSV quoting.
- Profile flags are booleans, where the network code tests some for truth and some for identity with `True`.
- Digits are ASCII and `isidentifier` is its ASCII part; of the Unicode classes only whitespace is modelled (`Texts.Space`).
- A worker process that is killed loses its pending completion; only losses of messages and restarts of the Controller are modelled.
