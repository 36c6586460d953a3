# A verified model of the agent engine's state machines

This project models, in Dafny, the parts of the agent engine that keep state and decide: the swarm orchestrator, the
goal decomposition engine, the run loop with its stabiliser and its gates, the autonomous queue, the rate limiter, the
agent wallets, tool templates, agent memory, pattern mining and goal pursuit. The language models, HTTP services,
databases and clocks around them are inputs that may answer anything.

Where the source updates dictionaries and lists step by step, the model is a class with the same fields and the same
loops, and each of its methods is proved to perform one step of a protocol or function; the properties are then proved
about every run of those steps.

| file | what it models |
|---|---|
| `SwarmProtocol.dfy` | the orchestrator's state and one atomic step per handler |
| `SwarmSafety.dfy`, `SwarmRuns.dfy`, `SwarmPerformance.dfy` | what every step keeps; what holds over whole runs; the agents' records |
| `SwarmReports.dfy`, `SwarmLabels.dfy` | late, repeated and misdirected reports; task ids used again |
| `SwarmInterleaving.dfy`, `SwarmDoubleEntry.dfy` | two reports that interleave at their awaits, and a run with them |
| `SwarmDispatch.dfy` | which agent gets the next task |
| `SwarmFailures.dfy`, `SwarmDeliveries.dfy` | a turn of the loop during a failure report, and a report during a turn |
| `SwarmOrchestrator.dfy` | the orchestrator object with its loops |
| `GoalPlan.dfy`, `SearchDepth.dfy`, `CriticalPath.dfy` | dependency chains, and the memoised search for the longest |
| `Makespan.dfy` | carrying out a plan |
| `Replan.dfy`, `ChainDurations.dfy`, `ReplanPaths.dfy` | replanning, and what it does to the critical path under all durations |
| `LoopStabilizer.dfy`, `StabilizerActions.dfy`, `Verifier.dfy`, `StepResults.dfy` | the stabiliser's eight checks and what they make it say, the verifier's check for repetitions, and what step results hold |
| `RunLoop.dfy`, `RunTrace.dfy`, `RunLoopTheorems.dfy` | the run loop, a call as a trace of turns, and what every call keeps |
| `CallOutcomes.dfy`, `CourseChanges.dfy` | how a session ends; context, history and plan turn by turn |
| `Stagnation.dfy`, `RepeatedErrors.dfy`, `OnlyErrors.dfy` | which calls are told that they stagnate, what repeated errors do, and how calls of nothing but errors end |
| `StepGates.dfy`, `StepExecution.dfy`, `AgentRun.dfy` | the gates before an action, paying for it, and whole calls with their steps |
| `WalletLedger.dfy`, `WalletEffects.dfy`, `WalletManager.dfy` | balances, stakes and transaction lists, and what each operation does to them |
| `RateLimiter.dfy` | the pruned sliding-window log |
| `TaskQueueProtocol.dfy`, `TaskQueueOutcomes.dfy`, `TaskQueue.dfy` | the autonomous priority queue, and what becomes of its tasks |
| `Substitution.dfy`, `BodyTemplate.dfy` | filling `{{name}}` holes in text and in trees |
| `Patterns.dfy`, `PatternExtractor.dfy` | keys of action windows, and counting them |
| `MemoryModel.dfy`, `MemoryTheorems.dfy`, `MemoryCopies.dfy`, `AgentMemory.dfy` | stores, keyword index, recall and forgetting |
| `GoalPursuit.dfy`, `GoalPursuitTheorems.dfy`, `GoalPursuitCycles.dfy` | the life of a pursued goal |
| `Prelude.dfy`, `StableSort.dfy` | shared notions; Python's stable descending sort |

`dafny verify dfyconfig.toml` checks the whole project.

## What the model shows about the code

Some things hold only under a condition, or differ from what the code's comments and names suggest. Each is stated by the
member named.

- Reports name a task by an id that goals may share, and reach the last goal that has it (`ReportReachesIff`). A goal whose id
  is used again can never be completed (`ShadowedForever`); the plan made when a decomposition fails always uses the same
  one (`SecondFallbackBlocksFirst`).
- Reports are accepted whatever became of the task: a success sent twice can queue a dependent twice, and a late failure undoes
  a completion (`ReportKeepsInvIff`, `RetriedSuccessIff`, `CompletionIsUndoneIff`).
- Two success reports that interleave at the await in their handler queue a dependent twice, exactly when it waited for
  the two as its last (`InterleavingIsHarmlessIff`); it is then taken up again after it is finished
  (`FinishedIsTakenUpAgain`). A failed agent that is handed a task at the await is freed of it (`TurnBetweenIsHarmlessIff`).
- A report that arrives while its task is still being handed out is overwritten (`ReportBetweenIsHarmlessIff`): the success of
  an agent that is fast enough leaves the task IN_PROGRESS with nobody (`FastReportIsLost`).
- The search for blocked tasks never finds one (`NothingIsBlockedWhenIdle`).
- A goal whose dependencies have a cycle, or name a task it does not have, is never completed; nor is one without tasks.
- A plan whose task ids repeat can be carried out although the last task of an id, at which alone the critical path looks, waits
  for itself (`RepeatedIsCarriedOut`).
- Replanning can make the critical path longer: a task that already names the id of the fallback task then waits for it
  (`StaleRetryIdLengthens`, `NeverLengthensIffLed`).
- Completing the fallback task of a replanned goal lets nothing else start, unless a task already named its id
  (`RetryUnblocksNothingIff`).
- The oscillation check does not see an alternation between two actions (`AlternationIsNotSeen`), and the escalation
  branch of the run loop is dead (`NeverEscalates`).
- The verifier never detects a loop (`LoopDetectionIsDead`), and since it rejects every repeated error as feedback, a call
  that begins at loop count zero and only fails is never ended by an error (`ErrorsEndItIff`): with a loop limit below 250, and
  tokens for as many steps, it ends as completed (`ErrorsCompleteIff`). From the third error in a row on, running out of
  time does not end it either.
- An exception without a message is no error to the loop (the predicate `StepResults.Fails`).
- Stagnation takes errors that the verifier rejected and a success among them: errors alone reach the error limit, which
  outranks it (`CanStagnateIff`, `CanReallyStagnateIff`).
- From turn 200 on a second error in a row no longer makes for a new plan: the warning about turns comes first (`ActionIff`).
- A session cancelled between steps is marked completed (`CancelledIsMarkedCompleted`), and no deliverable is ever
  recovered when one is cut off (`NothingIsRecovered`).
- The approval that a critical action needs is a field of the action that the language model itself writes
  (`CarriedOutWasApproved` says no more), and an agent without a wallet is not charged (`NoWalletNoCharge`).
- A step that raises after its charge has been paid for and counts as an error (`ResultTells`).
- Amounts are not checked: a negative deposit takes money out, a negative payment takes it from the payee, a negative stake
  or unstaking can leave a negative stake or balance (`ApplyKeepsNonNegativeIff`).
- The limit on creations per day holds only if the caller asks for a window of at least a day (`DailyCreationsIff`).
- Re-registering an agent of the autonomous queue empties its list while its tasks go on (`ReRegistrationIff`).
- The order in which a tool's parameters are filled matters as soon as a value contains another parameter's hole
  (`OrderIsFreeIffIndependent`).
- Consolidation copies memories instead of moving them (`ConsolidationCopies`), an important one up to eleven times
  (`ImportantIsCopiedAgain`), and a recall of working memory makes it
  drop its most important memory next (`RecallMakesTheBestNext`).
- A goal with three unresolved obstacles is replanned for the rest of its attempts and never completed
  (`ObstaclesStay`).

## Model

| member | source | states |
|---|---|---|
| SwarmSafety.NextKeepsInv | app/multi_agent_orchestrator.py:148-492 | every handler, run atomically, keeps: each task object in one place, the queue without repetition, an agent available exactly when it holds nothing, a goal COMPLETED exactly when it has tasks and all of them are; whatever labels the tasks share |
| SwarmSafety.SubmitKeepsInv | app/multi_agent_orchestrator.py:164-183 | so does any submission, also one whose task ids repeat each other or those of earlier goals: every task is a new object, queued if it has no dependencies and waiting otherwise |
| SwarmSafety.ReportReachesIff | app/multi_agent_orchestrator.py:355-362 | in every state a report with the id of a task reaches that task if and only if no task before it in its goal and none in a later goal has the same id |
| SwarmSafety.DispatchKeepsInv | app/multi_agent_orchestrator.py:250-344 | a turn of the loop moves the head of the queue to one idle agent, or to the end of the queue, and nothing else; a failed delivery included |
| SwarmSafety.SuccessKeepsInv | app/multi_agent_orchestrator.py:346-395 | a success report by the holder queues exactly the dependents it makes ready |
| SwarmSafety.FailureKeepsInv | app/multi_agent_orchestrator.py:402-430 | a failed task is back in the queue once, its agent free |
| SwarmSafety.RegisterKeepsInv | app/multi_agent_orchestrator.py:148-162 | an agent that holds nothing may be registered anew |
| SwarmSafety.RegisterKeepsInvIff | app/multi_agent_orchestrator.py:148-162 | and one that holds a task may not: the task would be in progress with nobody |
| SwarmSafety.NothingIsBlockedWhenIdle | app/multi_agent_orchestrator.py:447-461 | the search for blocked tasks runs only on an empty queue, and there it finds none: it changes nothing in any reachable state |
| SwarmSafety.QueueAfterSuccess | app/multi_agent_orchestrator.py:432-445 | a task is in the queue after a success of the holder if it was before or if the success made it ready, and not otherwise |
| SwarmRuns.ExactlyOnePlace | app/multi_agent_orchestrator.py:250-461 | in every reachable state a task is waiting on a dependency, or in the queue once, or held by exactly one agent, or COMPLETED, and nowhere else; available means holding nothing |
| SwarmRuns.DependencySafety | app/multi_agent_orchestrator.py:179-182 | whatever is queued, in flight or COMPLETED has each dependency COMPLETED by a task of its own goal, through any failures and requeues |
| SwarmRuns.StepFinishes | app/multi_agent_orchestrator.py:250-445 | a step completes the task of a success report and no other, and undoes no completion, dependency or goal list |
| SwarmRuns.CompletedIsForever | app/multi_agent_orchestrator.py:370-373 | COMPLETED is never undone by any continuation of the run |
| SwarmRuns.CompletionNeedsEverySuccess | app/multi_agent_orchestrator.py:463-492 | a goal is COMPLETED if and only if it has had exactly as many successful reports as it has tasks, and it has some |
| SwarmRuns.NoDeadlock | app/multi_agent_orchestrator.py:250-461 | a non-empty goal with acyclic dependencies on its own tasks that is not COMPLETED has a task queued or in flight |
| SwarmRuns.CanFinish | app/multi_agent_orchestrator.py:250-492 | from every state that keeps the invariant some legal continuation completes a non-empty, soundly planned goal whose unfinished tasks reports can reach, however many agents are taken by tasks that nobody can report |
| SwarmRuns.CompletableIffSound | app/multi_agent_orchestrator.py:164-193 | a goal can still be completed if and only if it has tasks, its dependencies are acyclic and name only its own tasks, and reports can reach each of its unfinished tasks |
| SwarmRuns.CompletedGoalWasSound | app/multi_agent_orchestrator.py:432-445 | a cycle or a missing dependency keeps a goal from ever being COMPLETED |
| SwarmReports.ReportKeepsInvIff | app/multi_agent_orchestrator.py:346-400 | for every status of the task and every reporter: a report keeps the invariant if and only if the reporter is busy with no other task and the task is in flight at it; or it is COMPLETED, and a repeated success finds no dependent in the queue, a late failure no dependent that is ready and the goal unfinished; or it waits for nothing but itself and a success is reported |
| SwarmReports.RetriedSuccessIff | app/multi_agent_orchestrator.py:364-395 | the success report of the holder, sent twice, keeps the invariant if and only if the first let nothing into the queue |
| SwarmReports.CompletionIsUndoneIff | app/multi_agent_orchestrator.py:250-430 | in any state and by any event, COMPLETED is undone if and only if the event is a failure report that finds the task, or a turn that finds it at the head of the queue |
| SwarmReports.CompletionIsUndoneByFailure | app/multi_agent_orchestrator.py:402-430 | while the invariant holds, only by such a failure report |
| SwarmLabels.ShadowedForever | app/multi_agent_orchestrator.py:354-373 | an unfinished task that reports cannot reach is never COMPLETED, nor is its goal, whatever events follow, legal or not |
| SwarmLabels.SubmissionSparesIff | app/multi_agent_orchestrator.py:164-193 | a goal that can still be completed can be after another submission if and only if that uses no id of its unfinished tasks |
| SwarmLabels.SecondFallbackBlocksFirst | app/multi_agent_orchestrator.py:246-248 | two goals whose decomposition fails both get the one task `task_1`: the first could be completed until the second came, and never is afterwards |
| SwarmInterleaving.InterleavingIsHarmlessIff | app/multi_agent_orchestrator.py:346-395 | two success reports that interleave at the await, both tasks being marked COMPLETED before either unlocks dependents, keep the whole invariant if and only if no task has both among its dependencies as its last unfinished ones |
| SwarmDoubleEntry.InterleavedReportsQueueTwice | app/multi_agent_orchestrator.py:371-389 | a run of five events leads to a state in which two legal reports interleave so and queue their dependent twice |
| SwarmDoubleEntry.FinishedIsTakenUpAgain | app/multi_agent_orchestrator.py:300-305 | from there the dependent and its goal are COMPLETED, and the second entry in the queue takes the finished task up again: it is IN_PROGRESS in a COMPLETED goal |
| SwarmFailures.TurnBetweenIsHarmlessIff | app/multi_agent_orchestrator.py:395-430 | a turn of the loop at the await of a failure keeps the invariant if and only if it does not hand the next task of the queue to the agent that has just failed; that agent is freed twice |
| SwarmDeliveries.ReportBetweenIsHarmlessIff | app/multi_agent_orchestrator.py:300-344 | a report that arrives while a task is being handed to its agent, the message going out or not, keeps the invariant if and only if it finds no task; or finds another task and does no harm in the state in which it arrives; or is a success of that task that lets nothing in, leaves the goal unfinished, and comes from an agent left with nothing |
| SwarmDeliveries.FastReportIsLost | app/multi_agent_orchestrator.py:327-338 | an agent that reports its task before the message counts as sent: its success is overwritten, and the task is IN_PROGRESS with nobody |
| SwarmPerformance.RecordsCountReports | app/multi_agent_orchestrator.py:374-417 | from one registration to the next an agent's record counts exactly the successes it reported and the failures it reported or caused by not being reached; its score goes up 0.1 and down 0.2 with them, in their order, between 0.1 and 2.0 |
| SwarmProtocol.BestAgent | app/multi_agent_orchestrator.py:278-298 | an idle agent is chosen whenever there is one, and none has a higher performance score, executors having 0.5 more |
| SwarmDispatch.HeadGoesToTheFirstBest | app/multi_agent_orchestrator.py:250-317 | a turn whose message goes out gives the head of the queue to the idle agent of the highest score, the first registered of them, and changes nothing else; without an idle agent the task is BLOCKED at the end of the queue |
| SwarmOrchestrator.Orchestrator.RegisterAgent | app/multi_agent_orchestrator.py:148-162 | the whole new state is that of the protocol step |
| SwarmOrchestrator.Orchestrator.SubmitGoal | app/multi_agent_orchestrator.py:164-193 | the whole new state is that of the protocol step, for any ids; the loop queues the dependency-free tasks in order |
| SwarmOrchestrator.Orchestrator.OrchestrationTurn | app/multi_agent_orchestrator.py:250-276 | one turn of the loop performs the protocol step and keeps the invariant |
| SwarmOrchestrator.Orchestrator.FindBestAgent | app/multi_agent_orchestrator.py:278-298 | the loop finds the idle agent of the highest score, executors having 0.5 more, and of equal ones the first registered |
| SwarmOrchestrator.Orchestrator.AssignTask | app/multi_agent_orchestrator.py:300-317 | task and agent are linked both ways before the message is sent |
| SwarmOrchestrator.Orchestrator.TriggerAgentExecution | app/multi_agent_orchestrator.py:319-344 | a delivery that fails is a failure of the task |
| SwarmOrchestrator.Orchestrator.ReportTaskComplete | app/multi_agent_orchestrator.py:346-400 | the whole handler is the protocol step, unknown ids and unknown agents included, and keeps the invariant if it reaches a task that its reporter holds |
| SwarmOrchestrator.Orchestrator.FindTask | app/multi_agent_orchestrator.py:354-362 | the search over all goals ends with the hit of the last goal that has one, or with nothing for an unknown id |
| SwarmOrchestrator.Orchestrator.FindInGoal | app/multi_agent_orchestrator.py:358-362 | within a goal it stops at the first task with the id |
| SwarmOrchestrator.Orchestrator.HandleTaskFailure | app/multi_agent_orchestrator.py:402-430 | through FAILED back to PENDING, unassigned, at the end of the queue |
| SwarmOrchestrator.Orchestrator.UnlockDependentTasks | app/multi_agent_orchestrator.py:432-445 | the loop queues the dependents whose dependencies are all COMPLETED, in plan order |
| SwarmOrchestrator.Orchestrator.CheckBlockedTasks | app/multi_agent_orchestrator.py:447-461 | the nested loops release exactly the BLOCKED tasks whose dependencies were met when they began |
| SwarmOrchestrator.Orchestrator.CheckGoalCompletion | app/multi_agent_orchestrator.py:463-476 | the goal is COMPLETED if and only if all its tasks are, and nothing else changes |
| StableSort.SortDescSorted | app/goal_engine.py:336-337 | `sort(reverse=True)` puts greater keys first |
| StableSort.SortDescStable | app/goal_engine.py:336-337 | and keeps the old order among equal keys |
| GoalPlan.LongestIsLongest | app/goal_engine.py:243-262 | no dependency chain ending at a task takes longer than what the search finds for it, whatever the durations |
| GoalPlan.CriticalPathIsOptimal | app/goal_engine.py:232-279 | the critical path is a chain of plan tasks linked by dependencies, and no chain takes longer; negative durations and missing dependencies included |
| GoalPlan.RankDoesNotMatter | app/goal_engine.py:243-262 | the recursion has one value, whichever order of the acyclic plan justifies it |
| SearchDepth.SearchEndsIffAcyclic | app/goal_engine.py:232-279 | the search for the critical path ends at all if and only if no task depends on itself in some steps; otherwise it recurses for ever |
| SearchDepth.FoundIsCritical | app/goal_engine.py:232-279 | and if it ends, in whatever depth of calls, it has found the critical path |
| CriticalPath.CriticalPathSearch.GetLongestPath | app/goal_engine.py:243-262 | on any plan: what the memoised search returns is what the plain recursion gives, its table too, and where that ends in a depth of calls, so does the search |
| CriticalPath.FindCriticalPath | app/goal_engine.py:232-279 | on any plan: what the loop over the tasks returns is a longest of all dependency chains, and the plan has no cycle then |
| Makespan.GetNextTasks | app/goal_engine.py:322-338 | exactly the tasks not completed whose dependencies are all completed, by descending priority, ties in plan order |
| Makespan.CarriedOutIffSound | app/goal_engine.py:322-338 | starting everything offered, again and again, carries out the whole plan if and only if for each id one of the tasks that have it can be chosen so that there is no cycle and no missing dependency; with unique ids, if and only if the plan is acyclic and names no missing task |
| Makespan.RepeatedIsCarriedOut | app/goal_engine.py:232-338 | a plan of two tasks with one id is carried out although the task that its critical path is searched in depends on itself |
| Makespan.MakespanIsAtMost | app/goal_engine.py:232-338 | with enough workers the plan is then done within the critical path of every such choice, whatever the durations, negative ones counting as none |
| Makespan.MakespanIsTaken | app/goal_engine.py:232-338 | and in exactly that of one choice |
| Makespan.MakespanIsTheCriticalPath | app/goal_engine.py:232-338 | so a sound plan is done within the duration of its critical path, and in exactly that if no two tasks have the same id |
| Makespan.NoScheduleIsShorter | app/goal_engine.py:232-279 | no schedule that respects the dependencies is over earlier |
| Replan.ReplanGoal | app/goal_engine.py:281-320 | on any plan: the new one holds what is left and the fallback task, with a longest chain of it, and its total is the old total less what is completed plus the fallback |
| Replan.ReplannedMinutes | app/goal_engine.py:309 | the total falls by the completed minutes and grows by those of the fallback task |
| Replan.ReplanKeepsAcyclicity | app/goal_engine.py:281-308 | an acyclic plan stays acyclic if and only if the fallback task does not end up naming itself |
| ReplanPaths.ReplanLengthensIff | app/goal_engine.py:281-320 | with a new fallback id, both plans having no cycle, replanning lengthens the critical path if and only if the fallback task alone takes longer than that |
| ReplanPaths.ReplanNeverLengthens | app/goal_engine.py:281-320 | which it never does, whatever has been completed and whatever the durations, unless a later task has the failed id too |
| ReplanPaths.StaleRetryIdLengthens | app/goal_engine.py:295-304 | with a fallback id that a task already names, it does: a plan of at most one minute becomes one of at least two |
| ReplanPaths.NeverLengthensIff | app/goal_engine.py:281-320 | replanning lengthens the critical path under no durations if and only if the tasks behind the fallback task on any new chain are, with the failed task, on one old chain |
| ReplanPaths.NeverLengthensIffLed | app/goal_engine.py:281-320 | where completed tasks have completed dependencies and the failed one is not completed: if and only if the failed task already leads to every task left that names the fallback id |
| Replan.RetryIsOffered | app/goal_engine.py:295-338 | the fallback task is ready at once if and only if its id is not already completed |
| Replan.RetryComesFirst | app/goal_engine.py:295-338 | whenever the fallback task and the failed task are both offered, the fallback task comes first |
| Replan.RetryUnblocksIff | app/goal_engine.py:281-338 | completing the fallback task lets a task start if and only if that one names its id and waits for nothing else |
| Replan.RetryUnblocksNothingIff | app/goal_engine.py:281-338 | so it lets nothing else start if and only if no task left waits for it alone; with a new fallback id none does, and the failed task keeps its dependents |
| LoopStabilizer.Stabilizer.RecordStep | app/loop_stabilizer.py:118-149 | the step is recorded in every list and counter, and the report is that of the new state |
| LoopStabilizer.Stabilizer.CheckStability | app/loop_stabilizer.py:178-220 | the loop reports the first of the most severe checks |
| LoopStabilizer.WorstOf | app/loop_stabilizer.py:178-220 | the fold yields a report that no check exceeds and that no earlier check equals in severity |
| LoopStabilizer.FirstWorstIsUnique | app/loop_stabilizer.py:178-220 | that determines the report |
| LoopStabilizer.LimitAborts | app/loop_stabilizer.py:222-230 | at the iteration limit the report is ABORT whatever the seven other checks say |
| LoopStabilizer.EscalationNeedsRevisions | app/loop_stabilizer.py:244-276 | ESCALATE needs the limit of recorded plan revisions, and loses against the error limit |
| LoopStabilizer.AlternationIsNotSeen | app/loop_stabilizer.py:298-321 | six actions that alternate between two are never reported |
| LoopStabilizer.PeriodThreeIsSeen | app/loop_stabilizer.py:298-321 | with the default window, oscillation is reported if and only if the last six actions repeat with period three |
| StabilizerActions.ActionIff | app/loop_stabilizer.py:178-380 | in every state, told by the limits: ABORT at 250 turns or out of time unless errors, revisions or repetitions outrank that; ROLLBACK from the third error in a row or at eight equal steps among ten; REPLAN where progress stalls, actions go round in threes, or a second error comes before turn 200; SLOW_DOWN from turn 200, without confidence or at four fifths of the time |
| StabilizerActions.EightInARowAreSeen | app/loop_stabilizer.py:323-344 | eight equal steps at the end are reported, whatever was before them |
| LoopStabilizer.Stabilizer.CreateCheckpoint | app/loop_stabilizer.py:155-166 | the checkpoint becomes the latest one, and earlier ones stay |
| RunLoop.Session.RunLoop | app/executor.py:2675-2941 | the loop, over session, verifier and stabiliser, takes exactly the steps of the model run and ends as it does, with the status that what it kept gives it |
| CallOutcomes.StatusIff | app/executor.py:2675-2941 | a session ends waiting if and only if its last step awaits an approval and is heard: not cut off by tokens, stabiliser, planner, supervisor or verifier; it ends failed if and only if its last step was not heard or was an error to give up on; and completed otherwise |
| RunLoop.Session.OneTurn | app/executor.py:2698-2911 | one turn from the guard on changes the loop variables as the model turn does |
| RunLoop.Session.ReactTo | app/executor.py:2766-2862 | what each stabiliser action and verifier verdict does to context, history and plan |
| CourseChanges.GoingOnSteers | app/executor.py:2742-2911 | a turn that goes on leaves the step's context and history, or after a rollback the checkpoint's with its last five entries, and a new plan for each of its reasons: the stabiliser's advice and an error that is no feedback |
| CourseChanges.EveryTurnSteers | app/executor.py:2742-2911 | so it is for every turn of a call but its last |
| CourseChanges.AchievingSaves | app/executor.py:2840-2870 | the turn that achieves the goal saves a checkpoint of how it ends, whenever the last one was |
| RunLoopTheorems.StepBound | app/executor.py:2698-2781 | a call takes at most 250 steps and at most those its limit leaves, and leaves by the guard only if that is fewer than 250 |
| RunLoopTheorems.GuardIsReachableIff | app/executor.py:2698-2781 | some environment makes a call leave by the guard if and only if its limit leaves no step or, with tokens left, fewer than 250: the ABORT of step 250 outranks everything |
| RunLoopTheorems.BudgetIsCheckedEveryStep | app/executor.py:2727-2740 | only the first step of a call can begin with the token budget used up |
| Verifier.VerifierAgent.CheckForLoops | app/verifier.py:289-327 | the verdict is by the copies among the last ten digests, and a step is noted only if nothing was found |
| Verifier.VerdictIff | app/verifier.py:289-327 | three of the last ten places are a loop, two are rejected; any other step is noted, and the last fifty are |
| RunLoopTheorems.LoopDetectionIsDead | app/verifier.py:289-327 | no call ever ends because the verifier detects a loop: what stands twice among the last ten is rejected and not noted, so nothing stands there three times |
| RunLoopTheorems.OnlyTheLastStepEnds | app/executor.py:2832-2911 | no step but the last of a call achieves the goal, waits for approval, is found to be a loop, or fails at a loop count of three or more without feedback |
| RunLoopTheorems.NeverEscalates | app/executor.py:2806-2830 | ESCALATE is never reported inside the loop: no plan revision is ever recorded with the stabiliser |
| Stagnation.ErrorsAndStagnation | app/executor.py:2755-2912 | while the verifier rejects no failed step, no step sees more than three errors in a row and stagnation is never found |
| Stagnation.CanStagnateIff | app/executor.py:2755-2912 | whatever the verifier, a call can be told that it stagnates if and only if its limits leave room for a turn before which it may reject failures: in turns j-4 and j-3 and one of the next two, unless they come within the first two loops |
| RepeatedErrors.FalteringStagnates | app/executor.py:2755-2912 | such a call, with the verdicts of the verifier as it is: error, error, success and two rejected errors, the last of which is reported as stagnation |
| RepeatedErrors.CanReallyStagnateIff | app/executor.py:2743-2912 | with the verifier as it is, some call can be told so if and only if its loop limit leaves five steps to one that begins at loop count zero, seven to one resumed later |
| OnlyErrors.ErrorsEndItIff | app/executor.py:2698-2911 | a call in which every step fails, whatever its tokens, delays, cancellations and planner: an error ends it if and only if it does not begin at loop count zero and takes a step in the third loop with tokens and time left and, if that is its second, a new plan, everything before having gone on |
| OnlyErrors.UndisturbedErrorsEndItIff | app/executor.py:2698-2911 | without cancellation, delay and planner failures: if and only if it does not begin at zero, its limit leaves it a step and reaches the third loop, and it has the tokens for its first step, or its first two if it begins at one |
| OnlyErrors.ErrorsCompleteIff | app/executor.py:2698-2926 | it ends as completed if and only if within its first 250 turns its loop limit is reached or it is cancelled, the tokens having lasted and the first two errors having had time, a plan and a loop count below three; later errors never end it, even out of time |
| OnlyErrors.UndisturbedErrorsCompleteIff | app/executor.py:2698-2926 | begun at zero and undisturbed: if and only if its loop limit is zero, or below 250 with tokens for as many steps |
| RunLoopTheorems.RollbackGoesBackAtMostFiveTurns | app/executor.py:2784-2793 | checkpoints are those of every fifth turn: a rollback restores the context and last five results that the loop had before the last turn that is a multiple of five |
| RunLoopTheorems.CancelledIsMarkedCompleted | app/executor.py:2698-2926 | a session cancelled between steps ends as completed, not as cancelled |
| RunLoopTheorems.NothingIsRecovered | app/executor.py:2714-2721 | whatever tools succeed in a call, what it keeps, one entry for each step, shows nothing to deliver, because it is read under a key that no step result has; it ends as completed only by goal, guard or cancellation |
| RunLoopTheorems.RecoveredIsCompleted | app/executor.py:2714-2721 | a deliverable that was found would make any session completed that is cut off otherwise than by tokens |
| RunLoopTheorems.RecoverableIff | app/executor.py:2943-2997 | read under the key that results do have, it would show a deliverable if and only if a step had finished the podcast |
| StepExecution.ExecuteAction | app/executor.py:3081-3330 | the gates in their order, the tool and the charge give the step result of the model and leave the wallet of the model |
| StepGates.CarriedOutIff | app/executor.py:3081-3260 | an action is carried out if and only if every gate lets it through, in whatever order; below a trust of 40 its tool must have none of fourteen words in its lower-cased name, below 60 none of the seven critical ones, and with one of those it needs its approval |
| StepGates.AwaitsIff | app/executor.py:3112-3260 | it awaits an approval if and only if the agent is governed and the execution gate asks for one, or, all gates being passed, the policy or the safety envelope does |
| StepGates.BlockedBecause | app/executor.py:3081-3240 | and it is blocked by the first of nine gates that is closed |
| StepGates.PillarIs | app/executor.py:4739-4773 | which pillar is named: oversight before privacy before safety |
| StepGates.RiskIs | app/executor.py:4653-4686 | the five risk ratings by the words in the name and the kind of action |
| StepGates.ContainsIff | app/executor.py:4668-4675 | a word is in a name if the name is that word with something before and behind it |
| StepGates.ResultTells | app/executor.py:3262-3330 | a step is charged if and only if its result is that of an action carried out, or it raised after the charge: then it was paid for and counts as an error |
| StepGates.Cost | app/executor.py:4471-4500 | every action costs between 0.01 and 5 tokens, so the balance check is never skipped |
| StepGates.CostIs | app/executor.py:4471-4500 | 0.1, 0.05, 0.5, 1 or 0.01 by kind, times five, two or three by the first of the words in the tool name |
| StepGates.SpendSucceeds | app/executor.py:3212-3303 | with a wallet, the balance check makes the later spend succeed |
| AgentRun.RunAgent | app/executor.py:2698-3330 | the loop with its steps: session and wallets end as the model call leaves them, each step having been decided on the wallet that the ones before it left |
| AgentRun.CallWaitsIff | app/executor.py:2870-2881 | a whole call leaves its session waiting if and only if its last turn awaits an approval and is heard |
| AgentRun.CarriedOutInIff | app/executor.py:3081-3260 | a turn of a call carries its step out if and only if nothing raises before and all gates let it through with what the turns before left in the wallet |
| AgentRun.NothingAfterAWait | app/executor.py:2870-2881 | a turn that awaits an approval is the last of its call to take a step, and nothing is carried out or charged in it |
| AgentRun.CarriedOutWasApproved | app/executor.py:3104-3270 | of what a call carries out, every critical step has its approval, in either mode, the agent is trusted with every tool, and every step of a governed agent passed gate, policy and safety without needing one; and no turn up to it awaited one |
| AgentRun.WaitsForItsLastTurn | app/executor.py:2870-2881 | a call that ends waiting for an approval is governed and has just taken the only turn that awaits one |
| AgentRun.ModesDifferByApprovalsOnly | app/executor.py:3120-3260 | where gate, policy and safety ask for no approval, the call of a governed agent is that of an unbounded one, turn by turn and token by token |
| AgentRun.BalanceFallsByCosts | app/executor.py:3212-3303 | before every turn the balance is the first one less the costs of exactly the charged turns, and never negative |
| AgentRun.CallCostsAreBounded | app/executor.py:2698-3303 | over a whole call it falls by the costs of the charged ones among the turns taken, at most 1250 tokens |
| AgentRun.NoWalletNoCharge | app/executor.py:3212-3303 | an agent without a wallet is neither checked nor charged |
| WalletLedger.ApplyKeepsBook | app/agent_wallet.py:131-453 | every operation keeps every balance and stake equal to the replay of its transaction list, for amounts of either sign |
| WalletLedger.LedgerReplays | app/agent_wallet.py:131-453 | hence after any run from an empty manager |
| WalletEffects.VerdictIff | app/agent_wallet.py:198-453 | exactly which operations are done and which refused: a withdrawal, spend, payment or stake is done if and only if the agent has a balance in the currency and at least the amount |
| WalletEffects.EffectIs | app/agent_wallet.py:198-453 | one that is done moves exactly its amount between exactly its balances and stakes, and enters it in the lists of its agents under its own kind; one that is refused moves nothing |
| WalletEffects.CurrenciesAre | app/agent_wallet.py:131-453 | and enters the one currency that it credits; a new wallet has two |
| WalletLedger.MissingOnlyForIdleAmounts | app/agent_wallet.py:234-453 | an operation reads a missing currency entry if and only if the currency was never entered and the amount is not positive (and the agent exists) |
| WalletLedger.ApplyKeepsNonNegativeIff | app/agent_wallet.py:131-453 | an operation leaves no balance and no stake negative if and only if the one sum that it does not check is not: a deposit's, a payee's, a stake's, or the balance that an unstaking changes; for all amounts |
| WalletLedger.NeverNegativeIff | app/agent_wallet.py:131-453 | nothing is ever negative over a run of any amounts if and only if that holds for each operation at its turn |
| WalletLedger.PositiveKeepsNonNegative | app/agent_wallet.py:198-453 | so positive amounts leave nothing negative |
| WalletLedger.DepositKeepsNonNegativeIff | app/agent_wallet.py:198-232 | an unchecked deposit keeps balances non-negative if and only if it takes out no more than is there |
| WalletLedger.PositiveRunsAreSafe | app/agent_wallet.py:131-453 | over a run of positive amounts nothing is ever negative or missing |
| WalletLedger.ApplyConserves | app/agent_wallet.py:198-453 | an operation changes the sum of all balances and stakes by what it brings in: payments, to oneself too, and stakes move it around |
| WalletLedger.Conservation | app/agent_wallet.py:198-453 | over any run the sum is deposits minus withdrawals minus fees |
| WalletManager.Manager.DepositTo | app/agent_wallet.py:198-232 | the wallet is created if need be, credited and logged; the books stay balanced |
| WalletManager.Manager.WithdrawFrom | app/agent_wallet.py:234-272 | the whole new state and the verdict; the books stay balanced |
| WalletManager.Manager.SpendFrom | app/agent_wallet.py:274-319 | the whole new state and the verdict; the books stay balanced |
| WalletManager.Manager.MakePayment | app/agent_wallet.py:321-384 | both wallets and both lists, the same one for a payment to oneself; the receiver gets a wallet even if the payment is refused |
| WalletManager.Manager.StakeTokens | app/agent_wallet.py:386-420 | balance, stake and list of the agent |
| WalletManager.Manager.UnstakeTokens | app/agent_wallet.py:422-453 | balance, stake and list of the agent; the stake is already reduced when the balance entry turns out missing |
| RateLimiter.PrunedCount | app/rate_limiter.py:78-101 | pruning changes no count that begins at the cutoff or later |
| RateLimiter.NextKeepsSound | app/rate_limiter.py:74-175 | checks, usage queries and cleanups keep the pruned log in agreement with the full history and every span up to the windows asked for within its limit |
| RateLimiter.WindowBound | app/rate_limiter.py:74-175 | in any interleaving with a forward clock, each check with a window of its own, every span up to the least window asked for, and up to a day, holds at most the limit of accepted requests of each operation |
| RateLimiter.BoundedIff | app/rate_limiter.py:74-175 | that is exact for all windows: any longer span can hold more, unless the limit is zero or the span empty |
| RateLimiter.AcceptsIffFewer | app/rate_limiter.py:74-108 | a check accepts if and only if fewer requests than the limit lie within its window, all operations counting for "default" and only its own otherwise; creations look back a day at most |
| RateLimiter.RemainingIs | app/rate_limiter.py:128-159 | a usage query counts creations of the last day and others within the window |
| RateLimiter.TierLimitsAre | app/rate_limiter.py:26-53 | the limits of all tiers |
| RateLimiter.AcceptsIffRemaining | app/rate_limiter.py:74-153 | a check accepts if and only if a usage query at that moment reports something left, for every window; only creations with one of less than a day follow that window instead |
| RateLimiter.OneMoreAccepted | app/rate_limiter.py:85-101 | requests that are accepted, one more than the limit within any longer span |
| RateLimiter.DailyCreationsIff | app/rate_limiter.py:85-101 | for all windows: the limit on creations per day holds if and only if the least window asked for is at least a day |
| RateLimiter.Limiter.CheckRateLimit | app/rate_limiter.py:74-108 | the verdict and the whole new log of the user; no other log changes |
| RateLimiter.Limiter.GetUsage | app/rate_limiter.py:128-159 | what is used and what is left, counted on the unpruned log |
| RateLimiter.Limiter.CleanUp | app/rate_limiter.py:161-175 | every log is pruned at a day, and emptied users disappear |
| TaskQueueProtocol.NextKeepsInv | app/autonomous_queue.py:194-324 | every step keeps: the heap is the PENDING tasks, once each; an agent's list is its active tasks, at most three; one coroutine per active task |
| TaskQueueProtocol.TasksAreConserved | app/autonomous_queue.py:247-324 | after any run, agents being registered anew whenever, each unfinished task is exactly once in the heap or in a coroutine of its stage, and no other is |
| TaskQueueProtocol.QueueConservation | app/autonomous_queue.py:194-324 | while no agent is registered anew during its work, the lists are also as above |
| TaskQueueProtocol.PoppedIsPending | app/autonomous_queue.py:262-268 | a popped task is always PENDING: the branch that would drop it is dead |
| TaskQueueProtocol.MostUrgentFirst | app/autonomous_queue.py:247-274 | what is assigned has the least priority value of all PENDING tasks, in any run |
| TaskQueueOutcomes.OutcomeIsTold | app/autonomous_queue.py:276-324 | in any run a task has the settings it was first added with; it is COMPLETED if and only if an execution of it returned, FAILED if and only if as many as are allowed raised, RUNNING if and only if one was begun and has not ended, and in the heap or with a coroutine otherwise |
| TaskQueueOutcomes.FailureIsRetried | app/autonomous_queue.py:299-307 | an exception puts the task back in the heap as long as attempts are left, and gives it up with the last |
| TaskQueueOutcomes.PoppedGoesToTheFirstFree | app/autonomous_queue.py:247-274 | a turn gives the popped task to the first agent on the roster with fewer than three, and changes nothing else; or nothing at all |
| TaskQueueOutcomes.RosterIsTold | app/autonomous_queue.py:194-204 | the roster is the agents registered since they were last unregistered, in that order |
| TaskQueueProtocol.AttemptsAreBounded | app/autonomous_queue.py:276-312 | in any run, agents being registered anew whenever, a task is executed at most `max_attempts` times (once, if that is less than 1) |
| TaskQueueProtocol.TerminalIsFinal | app/autonomous_queue.py:276-312 | COMPLETED and FAILED are final through every continuation, registrations included |
| TaskQueueProtocol.ReRegistrationIff | app/autonomous_queue.py:194-199 | registering an agent keeps the invariant if and only if it is registered or none of its tasks is active: re-registration empties its list |
| TaskQueue.AutonomousTaskQueue.ProcessQueue | app/autonomous_queue.py:247-274 | the first agent with fewer than three tasks gets a task of least priority value |
| TaskQueue.AutonomousTaskQueue.BeginExecution | app/autonomous_queue.py:276-281 | RUNNING, with one more attempt |
| TaskQueue.AutonomousTaskQueue.EndExecution | app/autonomous_queue.py:283-314 | the whole new state is that of the protocol step, whose outcomes `OutcomeIsTold` tells; off the agent's list in every case |
| TaskQueue.AutonomousTaskQueue.AddTask | app/autonomous_queue.py:316-324 | a new id is entered once and pushed once, a known one ignored |
| TaskQueue.AutonomousTaskQueue.RegisterAgent | app/autonomous_queue.py:194-199 | a new agent gets an empty list |
| TaskQueue.AutonomousTaskQueue.UnregisterAgent | app/autonomous_queue.py:201-204 | the agent leaves the roster; its tasks stay |
| Substitution.Substitute | app/custom_tools.py:274-277 | the loop replaces one parameter after the other |
| Substitution.ReplaceFillsHoles | app/custom_tools.py:274-277 | on a template of brace-free text and `{{name}}` holes, text replacement fills exactly the holes of that name |
| Substitution.SequentialIsSimultaneous | app/custom_tools.py:274-277 | replacing one after the other fills all holes at once, if no value has a hole that a later parameter would change |
| Substitution.PlainValuesInAnyOrder | app/custom_tools.py:320-338 | values without braces give that result in every order of the parameters |
| Substitution.OrderIsFreeIffIndependent | app/custom_tools.py:320-338 | every order gives that result on every template if and only if no value has a hole that another parameter would change |
| BodyTemplate.SubstituteParams | app/custom_tools.py:320-338 | the loops over keys and items produce the filled tree |
| BodyTemplate.OnlyLeavesChange | app/custom_tools.py:320-338 | filling keeps all places, keys, key order, list lengths and other values, and replaces each string leaf; and it is the only tree that does |
| Patterns.JoinSplit | app/learning_loop.py:168-183 | joining what was split gives back the key |
| Patterns.SplitJoinIff | app/learning_loop.py:168-183 | splitting a joined key gives back its names if and only if no name contains the separator |
| Patterns.KeysAreExact | app/learning_loop.py:164-171 | clean windows share a key only if they are the same: pairs never collide with triples |
| Patterns.PairAndTripleCollide | app/learning_loop.py:164-171 | with the separator inside a name a pair and a triple do share a key |
| Patterns.ToolKeysAreExact | app/learning_loop.py:265-267 | the key of a set of tools tells the set, whatever sorting is used, if no name has a comma |
| PatternExtractor.CountIsTotal | app/learning_loop.py:149-171 | the count under a window's key is the number of its occurrences over all successful outcomes, and nothing else's |
| PatternExtractor.OutcomeHitsAre | app/learning_loop.py:149-171 | a successful outcome is counted for its pairs from left to right and then its triples, and others not at all |
| PatternExtractor.GoalsAreThoseWithTheWindow | app/learning_loop.py:164-171 | the goals kept for a window are exactly those of the successful outcomes in which it occurs |
| PatternExtractor.PatternExtractor.ExtractActionSequences | app/learning_loop.py:145-191 | the nested loops produce the patterns of the model, in the order the keys were first seen |
| PatternExtractor.PatternExtractor.PatternIffFrequent | app/learning_loop.py:173-191 | a window becomes a pattern if and only if it stands at `min_observations` places (and `min_confidence` is at most 1), and the pattern carries that number, and a tenth of it as confidence up to 1 |
| PatternExtractor.PatternExtractor.PatternsAreInOrder | app/learning_loop.py:173-191 | patterns are reported in the order in which their windows were seen first |
| PatternExtractor.PatternExtractor.PatternsAreDistinct | app/learning_loop.py:173-191 | no pattern is reported twice |
| AgentMemoryObject.AgentMemory.Remember | app/agent_memory.py:96-133 | the whole new state: stored, consolidated or forgotten if full, and indexed last |
| AgentMemoryObject.AgentMemory.Recall | app/agent_memory.py:135-173 | the whole new state, the store sorted in place included, and the memories returned |
| AgentMemoryObject.AgentMemory.IndexMemory | app/agent_memory.py:234-249 | the id is listed under each word longer than three characters |
| AgentMemoryObject.AgentMemory.ConsolidateWorkingMemory | app/agent_memory.py:251-260 | the loop marks and copies the important memories; the last ten stay |
| MemoryTheorems.RunKeepsInv | app/agent_memory.py:96-277 | every run keeps: the index lists exactly the memories and their meaningful words, stores hold known memories, working and semantic memory stay within their limits |
| MemoryTheorems.IndexAgreesWithScan | app/agent_memory.py:155-163 | after any run the index finds exactly what a scan of the stored memories for a shared meaningful word finds, in the same order |
| MemoryTheorems.RecallReturnsTheBest | app/agent_memory.py:135-173 | a recall returns the best `limit` of the memories in its stores that share a word of more than three characters with the query, or of all without one, by importance and then access count, best first |
| MemoryTheorems.RecallReorders | app/agent_memory.py:145-166 | without a query it leaves the one store that it looks through in that order, and it leaves all others alone |
| MemoryTheorems.RememberStores | app/agent_memory.py:96-133 | a new memory goes to the end of the store of its kind; a full semantic store keeps its five thousand best, a full working one its last ten |
| MemoryTheorems.RecallCountsAccesses | app/agent_memory.py:168-173 | a recall counts one access each time a memory is returned, twice if it stands in two stores, and changes nothing else of any memory |
| MemoryTheorems.ConsolidationCopies | app/agent_memory.py:251-260 | memories of an importance above 0.7 are marked episodic and copied, not moved: once more in episodic memory, and still in working memory if among the last ten |
| MemoryCopies.ImportantIsCopiedAgain | app/agent_memory.py:113-116 | over a run without reordering recalls an important working memory is copied at every consolidation while it is there: eleven times in all if it came after the tenth, and as many times as its rank if it came before; all copies are forgotten together, and those made since are there |
| MemoryTheorems.ArrivalOrderIff | app/agent_memory.py:113-166 | all through a run working memory is the last ten working memories in the order of their arrival if and only if no recall without a query meets it in another order than that of importance |
| MemoryTheorems.OldestIsPushedOut | app/agent_memory.py:113-116 | in such a run a full working memory drops the one of its memories that came first |
| MemoryTheorems.RecallMakesTheBestNext | app/agent_memory.py:145-166 | after a recall of working memory without a query, which sorts the store itself, it drops a most important one instead: the first one only if nothing is more important |
| MemoryTheorems.ForgettingTakesTheFaded | app/agent_memory.py:262-272 | forgetting takes an episodic memory if and only if it was recalled fewer than three times and its importance, less its decay for each whole day, is under 0.2 |
| GoalPursuit.AutonomousGoal.PursueGoal | app/goal_pursuit.py:246-300 | one cycle over the goal object is the step of the model |
| GoalPursuit.AutonomousGoal.OvercomeObstacle | app/goal_pursuit.py:363-415 | only the new obstacle changes: one more attempt, and resolved if the strategy succeeded |
| GoalPursuit.AutonomousGoal.ReplanGoal | app/goal_pursuit.py:439-491 | new milestones, no progress, and only the unresolved obstacles; nothing if it fails |
| GoalPursuitCycles.TrappedIsReplanned | app/goal_pursuit.py:246-261 | in a cycle with three unresolved obstacles and an attempt left, an answer replaces the milestones by open ones in its order, sets progress to 0 and keeps exactly the unresolved obstacles in their order; without an answer all stay |
| GoalPursuitCycles.TrappedHasTheLastPlan | app/goal_pursuit.py:246-491 | a trapped goal has all the while the milestones of the last replan that was answered in time, all of them open |
| GoalPursuitCycles.OpenIsAttempted | app/goal_pursuit.py:263-300 | with fewer, the first open milestone is closed and the progress raised to match, or the obstacle is noted after one try to overcome it |
| GoalPursuitCycles.LastCycles | app/goal_pursuit.py:246-290 | the last attempt fails the goal whatever else; and without an open milestone it is completed |
| GoalPursuitTheorems.EveryGoalEnds | app/goal_pursuit.py:246-255 | every goal is COMPLETED or FAILED once its attempts are used up |
| GoalPursuitTheorems.MilestonesCloseInOrder | app/goal_pursuit.py:263-290 | in every state the completed milestones are a prefix and the stored percentage is their share, through any replans |
| GoalPursuitTheorems.ObstaclesStay | app/goal_pursuit.py:257-261 | the number of unresolved obstacles never falls, and with three of them a goal is never COMPLETED |
| GoalPursuitTheorems.CompletedIff | app/goal_pursuit.py:246-300 | a goal is COMPLETED if and only if its milestones are closed, one per successful cycle, before the last attempt but one and before a third obstacle stays unresolved |
| GoalPursuitTheorems.TooManyMilestones | app/goal_pursuit.py:246-300 | a goal with as many milestones as attempts, less one, is never COMPLETED whatever happens |

## Left out

- Records (tasks, agents, wallets, memories, goals) are values in the dictionaries and lists of the objects, addressed by
  id, or by goal and place in the swarm, and not objects of their own; sharing of one record by several lists is kept by
  sharing that.
- SwarmProtocol.BestAgent: an agent's current task is kept as the task object, where the source keeps its id and only looks whether there is one.
- SwarmSafety.NextKeepsInv: handlers are atomic, so that other handlers do not run at their awaits; `InterleavingIsHarmlessIff`, `TurnBetweenIsHarmlessIff` and `ReportBetweenIsHarmlessIff` say what happens when two success reports do, a turn of the loop during a failure report, and a report during a turn.
- CriticalPath.FindCriticalPath: the depth at which Python stops nested calls is a parameter; a search that nests deeper returns nothing instead of raising.
- Makespan.MakespanIsTheCriticalPath: asks for an acyclic plan with its dependencies in it; `CarriedOutIffSound` shows which others are carried out, and `MakespanIsTaken` in what time. Who starts what `get_next_tasks` offers is not in the source; here it is whoever has workers enough, and an id is done when the first of its tasks is.
- RateLimiter.Limiter.GetUsage: the time until the window resets, and the texts of refusals.
- RateLimiter.WindowBound: one set of limits per run; a user whose tier changes within a run is not modelled.
- Substitution.OrderIsFreeIffIndependent: texts and names are free of braces and values are texts of templates, because other text may form new holes when it is joined.
- BodyTemplate.SubstituteParams: nested objects and lists are values that are put back into their slot, as a template read from JSON shares none of them; aliasing is not modelled.
- PatternExtractor.PatternExtractor.ExtractActionSequences: the id digests, the time stamps and which five of the goals are listed; the whole set of goals is kept.
- AgentMemoryObject.AgentMemory.Remember: the words of a memory are given, and the digest index, which decides nothing, is not kept.
- AgentMemoryObject.AgentMemory.Recall: times of last access, which decide nothing.
- StepGates.Cost: names are lower-cased as ASCII.
- RunLoop.Session.RunLoop: plans are known by a number and dictionaries in step results by their digest, equal digests standing for equal contents; the texts of final output and of error messages, and failures of the database between steps.
- AgentRun.RunAgent: nobody else uses the agent's wallet during a call, and `_get_next_action`, the safety envelope and the policies answer as the input says.
- TaskQueue.AutonomousTaskQueue.ProcessQueue: the heap is a list with the contract of `heapq`; among tasks of equal priority the order of the heap is not modelled, and cancelled coroutines are not.
- Floats are exact: scores in tenths, progress in twentieths, confidence and importance in hundredths, costs in thousandths, shares as reals; rounding is not modelled. The running 0.1 steps of the performance score are exact tenths.
- The verifier's checks that call a language model, which the run loop does not use.
- Loading and saving of wallets, blockchain records, addresses, and `get_transactions`.
- Error patterns, outcome classification, `LearningMemory` and its recommendations; learned patterns in agent memory.
- Task generation of the autonomous queue, and its statistics.
- The energy rules, parallel runtime, collaboration, network and resilience services: easier bookkeeping only.
- Creating, listing, changing and building custom tools; only the substitution is modelled.
