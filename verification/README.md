# Zoomac: models and proofs

Zoomac is an agent. It plans goals as task graphs and carries them out under an approval
gate, takes its work from a persistent event queue, keeps a conversation history with tool
calls, and retrieves memories and facts. These Dafny modules model that logic and state what
it keeps.

- `GoalModel`, `GoalSafety`: a goal, its task rows and every single row write the planner
  issues. A run is any sequence of writes that are enabled one after the other, so it covers
  one runner, user input arriving between its writes, approvals of a finished plan, and a
  crash after any write. `GoalSafety` proves what every run keeps: acyclic and closed
  dependencies, topological order, exact deadlock, doom, truthful and final DONE, bounded
  attempts.
- `GoalOps`, `GoalRuns`: the planner's operations as functions of every answer the executor,
  the replanning model and the user may give, and sequences of whole operations.
- `GoalOutcomes`, `GoalAnswers`: what a step stores and what an answer does, said of the rows,
  the texts returned and the words typed.
- `GoalStops`: what a stopped run leaves behind.
- `GoalFate`: what operations and answers can still bring about: exactly when a task can be
  completed or started, and how tasks that wait for input are.
- `GoalEngine`, `CoreLoop`: the store, the engine and the message router as classes that
  write one row at a time; each method is tied to its operation in `GoalRuns`.
- `Approval`: the rule table, the newest-first scan and the set meaning it refines.
- `ArtifactFormat`: the `FILE:`/fence format and its parser.
- `EventQueue`: the two tables, conservation over every run, and the draining consumer.
- `Messages`, `History`, `Compaction`, `OpenAiMessages`: the tool-call protocol of a history,
  the tool loops and slash commands, compaction, and conversion to the OpenAI format.
- `Display`: what the interface composes about a call, and on which inputs that raises.
- `Sessions`, `BrokenSessions`: whole conversations, exactly when they keep calls and results
  together and what the provider is sent, and concrete conversations that do not.
- `Retriever`, `Facts`, `Topics`: recency deduplication, search and packing; fact versioning;
  greedy clustering.
- `JsonRpc`: newline framing and the table of waiting requests.
- `Prelude` (with module `Text`): option types and string operations.

A task's id is its position in creation order within its goal, and a fact's id its position in
storing order; rows are only appended. The answers of models, tools, users and the clock are
parameters, so every theorem holds for all of them.

## Where the code differs from what it suggests

- A plain "allow" stores no rule, so the next step asks again (`ConsentAsksAgain`);
  `ConsentLastsIff` says which answers last.
- `run_goal` stops after a step that executed nothing, and nothing takes the run up again. It
  leaves a ready task behind exactly when a failed one was put back or replaced in that step
  (`LeavesReadyIff`; `LoneFailureStalls` is an instance).
- It also leaves blocked tasks behind. A message can reach them exactly when every task is
  settled or blocked, since only then the goal is stored as BLOCKED (`StoppedRun`);
  `BlockedBehind` is a goal of two tasks where it cannot, and `CoreLoop.ProcessEvents` shows
  that such a goal never changes again.
- Only DONE satisfies a dependency. Dependents of a FAILED or SKIPPED task never start, and
  their goal never finishes (`DoomedForever`, `WedgedGoalStays`), also after a replacement.
- A task that waits for input is parked by the executor and at once treated as failed, so it
  does not wait: it can be answered only if the gate asks about it first (`WaitDoneIff`,
  `AskedBeforeAnswered`). By default memory queries, as which the gate judges it, need no
  approval, and then neither it nor anything that depends on it is ever completed
  (`UnaskedHoldsUp`, `InputNeverComes`).
- Which pending tasks are lost is more than doom: `StartedIff` is the exact condition, and
  `StartedIffAncestors` states it ancestor by ancestor. Where the gate does ask about memory
  queries, approving one task for the session can silence the question another one needs
  (`ApprovalSilencesTheGate`).
- An "abort" during a step can be overwritten by BLOCKED at its end (`AbortOverwritten`);
  `AbortSurvivesIff` says when.
- A "retry" answer to replanning leaves the task FAILED, like an answer without a decision.
- An approval that arrives while the planning model is still answering lets a step store
  DONE; planning then adds its tasks and stores DRAFT over it, or leaves the goal DONE with
  pending tasks if it raises half-way (`ApprovedWhilePlanning`).
- A crash between the two writes of a resume leaves a BLOCKED goal with a pending task
  (`CrashDuringInput`, `CrashLeavesPending`).
- A negative dependency index counts from the end; one that reaches below the first task
  raises and leaves a PLANNING goal with the tasks before it (`PlanMeaning`).
- Pushing an event under the id of a dead letter puts the id in both tables
  (`PushConserves`), and a replay of it raises.
- Compaction can separate a call from its results: on "/compact" between turns
  (`CompactCommand`, `CompactSeparates`), in the turn after a review (`TurnAfterReview`,
  `ReviewSeparates`) or after an interrupted turn (`AfterInterruption`,
  `InterruptionSeparates`). The compaction at the start of a turn that follows an answered
  one never does.
- A response that carries calls without stopping for tools is stored without results
  (`LoopPairing`, `OpenCallStored`).
- The texts shown about a call are composed outside of any try, after the calls of a response
  are stored and before their results are. A shell call without a command, or a write or edit
  whose contents are not texts, raises there and stays without result (`LeavesCallOpenIff`,
  `BareCallStaysOpen`); a response of well-typed calls never does (`WellTypedCarriesOn`).
- A call without an id, which the streaming provider stores when it receives none, is sent
  with a minted id while its result is dropped (`ConversionKeepsProtocol`,
  `UnnamedCallBreaks`).
- Structured ingestion without a previous value can leave active facts that disagree
  (`AgreeAfterStoring`, `StructuredDisagrees`).

## Model

| member | source | states |
|---|---|---|
| GoalSafety.WriteKeepsAcyclic | src/zoomac/planner/executor.py:197-211 | every write, replacements included, leaves dependencies pointing to earlier tasks only |
| GoalSafety.WriteKeepsClosed | src/zoomac/planner/store.py:215-225 | every write leaves each started or non-PENDING task with all its dependencies DONE |
| GoalSafety.WriteKeepsInv | src/zoomac/planner/engine.py:192-331 | every row write keeps the invariant; rows keep their plan, attempts never fall, DONE, SKIPPED and FAILED tasks never restart |
| GoalSafety.RunKeepsInv | src/zoomac/planner/engine.py:342-351 | the same over every run of writes, in any interleaving |
| GoalSafety.ReachableInv | src/zoomac/planner/engine.py:103-149 | the invariant holds in every state any run leads to from a goal's creation |
| GoalSafety.AncestorsDone | src/zoomac/planner/store.py:215-225 | everything a started task depends on, however indirectly, is DONE |
| GoalSafety.TopologicalOrder | src/zoomac/planner/engine.py:207-306 | a task is started, finished or answered only when all its ancestors are DONE, in every reachable state |
| GoalSafety.IdleIffSettledOrDoomed | src/zoomac/planner/store.py:215-225 | nothing is ready, running or waiting exactly when each task is settled or has a FAILED or SKIPPED ancestor |
| GoalSafety.NoDeadlock | src/zoomac/planner/engine.py:124-140 | while no task FAILED or was SKIPPED and some task is not DONE, some task is ready, running or waiting, in every reachable state |
| GoalSafety.DoomStays | src/zoomac/planner/store.py:218-223 | a pending task with a FAILED or SKIPPED ancestor stays one under every write |
| GoalSafety.DoomedForever | src/zoomac/planner/engine.py:383-419 | such a task never starts and its goal's completion check never stores anything again, over every run |
| GoalSafety.DoneIsTruthfulAndFinal | src/zoomac/planner/engine.py:401-412 | DONE means every task is DONE or SKIPPED and nothing depends on a SKIPPED one, and no later write changes the goal |
| GoalSafety.BudgetKept | src/zoomac/planner/engine.py:272-331 | over every run a task's attempts stay within its budget plus the recoveries that caught it running |
| GoalSafety.AttemptsBounded | src/zoomac/planner/store.py:256-262 | attempts never exceed max_attempts plus that task's crash recoveries |
| GoalOps.ResolveMeaning | src/zoomac/planner/engine.py:126-131 | resolution fails exactly when an index reaches below the first task; otherwise a task is a dependency exactly when an index names it from the start or from the end |
| GoalOps.GateReasonsAreAnswerable | src/zoomac/planner/approval.py:166-188 | whatever reason the gate writes into a blocked row, user input recognises it as an approval |
| GoalOps.ReplanEnabled | src/zoomac/planner/executor.py:181-213 | replanning changes the failed task to SKIPPED exactly for a skip or a replacement, appends the replacements, and touches no other row |
| GoalOps.FailEnabled | src/zoomac/planner/engine.py:307-331 | a failure puts the task back while attempts remain, else gives it up and replans; the effect is local |
| GoalOps.ExecEnabled | src/zoomac/planner/executor.py:42-69 | executing a task ends DONE, PENDING, FAILED or SKIPPED as outcome and attempts say, also when the executor parked it first |
| GoalOps.TaskEnabled | src/zoomac/planner/engine.py:213-331 | one ready task's turn issues only enabled writes, ends its row as the gate, outcome and reply say, and changes no other row |
| GoalRuns.ReadyUpToMeaning | src/zoomac/planner/store.py:215-225 | the ready list holds exactly the pending tasks whose dependencies are DONE, each once |
| GoalRuns.ReadyStaysReady | src/zoomac/planner/engine.py:207-213 | a task listed as ready is still ready, unchanged, and judged alike when its turn comes |
| GoalRuns.BatchSound | src/zoomac/planner/engine.py:213-331 | after a batch each ready task has had one turn judged on the state before the step, other rows are unchanged, new rows are pending and counted by the planner's replies |
| GoalRuns.StepContinues | src/zoomac/planner/engine.py:192-340 | a step is a run of enabled writes, so what every run keeps holds of it |
| GoalRuns.StepEffect | src/zoomac/planner/engine.py:192-340 | a step gives every ready task its turn and no other, and stores the status the completion check finds on the rows it leaves |
| GoalRuns.StartedOnlyIfPermitted | src/zoomac/planner/engine.py:213-278 | with autonomy and one rule table throughout, a step adds an attempt only to a ready task no deny rule matches and an allow rule matches or whose risk is low, and adds exactly one |
| GoalRuns.GatedAtEveryTurn | src/zoomac/planner/engine.py:213-278 | while rules may be stored between turns, each ready task is started at most once and only if the rules stored at its own turn and the risk table permit it; no other task is started |
| GoalRuns.OneTable | src/zoomac/planner/engine.py:213-331 | with one rule table throughout, the turns are those of a step |
| GoalRuns.StepProgress | src/zoomac/planner/engine.py:342-351 | a step that executes a task strictly reduces the tasks not DONE plus the replacements the planner may still add |
| GoalRuns.FirstAnswerable | src/zoomac/planner/approval.py:68-104 | user text goes to the first blocked task it can resolve, and to none exactly if there is none |
| GoalRuns.InputShape | src/zoomac/planner/approval.py:66-160 | user input writes one row of that task and, unless it refuses, reopens a blocked goal; nothing else |
| GoalRuns.InputEnabled | src/zoomac/planner/approval.py:203-211 | those writes are enabled, and the goal executes again exactly if it was blocked and the answer was no refusal |
| GoalRuns.ApproveEnabled | src/zoomac/planner/engine.py:156-170 | approval starts a goal that has not started and leaves every other alone |
| GoalRuns.StepKeepsBoundary | src/zoomac/planner/engine.py:333-340 | a step leaves nothing running, BLOCKED only with all tasks settled or blocked, FAILED only with a FAILED task |
| GoalRuns.InputKeepsBoundary | src/zoomac/planner/approval.py:66-160 | so does user input |
| GoalRuns.DoKeeps | src/zoomac/planner/engine.py:156-205 | every operation keeps what holds between operations, is a run of enabled writes, and leaves a DONE or FAILED status as it is |
| GoalRuns.StatusTruthfulAndFinal | src/zoomac/planner/engine.py:383-419 | after any sequence of operations BLOCKED, DONE and FAILED mean what they say, and DONE and FAILED last |
| GoalRuns.CrashDuringInput | src/zoomac/planner/approval.py:203-211 | a crash inside user input breaks the meaning of BLOCKED exactly between the two writes of a resume |
| GoalRuns.CrashLeavesPending | src/zoomac/planner/approval.py:203-211 | a concrete goal that a step stores as BLOCKED, and an answer for which that crash leaves its task pending |
| GoalRuns.CrashDuringStep | src/zoomac/planner/store.py:256-262 | a crash anywhere inside a step, then recovery, keeps the invariant and every DONE task, and nothing is running |
| GoalRuns.StoredApprovalPasses | src/zoomac/planner/approval.py:104-156 | the rule a session, command or path answer stores passes the task under any rules stored besides it exactly until a deny rule matches |
| GoalRuns.ReusableApprovalLasts | src/zoomac/planner/approval.py:104-156 | after such an answer the task's current row passes the gate after every later sequence of operations exactly until a deny rule matches |
| GoalRuns.ConsentLastsIff | src/zoomac/planner/approval.py:104-158 | with no other rule added, an answered task passes its next evaluation exactly when the answer stored a rule that covers it |
| GoalRuns.ConsentAsksAgain | src/zoomac/planner/approval.py:158-158 | any other consent makes the task ready and the next step blocks it again without starting it |
| GoalRuns.LoneFailureStalls | src/zoomac/planner/engine.py:344-350 | an instance: a lone task whose attempt fails is ready again with attempts left, yet the step executed nothing and the run loop stops |
| GoalRuns.WedgedGoalStays | src/zoomac/planner/engine.py:207-209 | once every task is settled or doomed and one is doomed, a step changes nothing |
| GoalRuns.AbortSurvivesIff | src/zoomac/planner/engine.py:401-417 | an abort during a step survives its completion check exactly when the turns leave all tasks settled or some task neither settled nor blocked; otherwise BLOCKED replaces it |
| GoalRuns.AbortOverwritten | src/zoomac/planner/executor.py:193-194 | a concrete goal whose abort is overwritten by BLOCKED |
| GoalRuns.PlanMeaning | src/zoomac/planner/engine.py:124-149 | for every list of specs, each stored task is its spec's and depends exactly on the earlier tasks its indices name; planning fails exactly at an index below the first task, keeping the prefix |
| GoalRuns.PlanningIs | src/zoomac/planner/engine.py:124-149 | the planning writes have the same rows whatever status the goal has, and store DRAFT exactly if all indices resolve |
| GoalRuns.ApprovedWhilePlanning | src/zoomac/planner/engine.py:124-166 | an approval before the plan is stored lets a step store DONE; planning then adds the planned tasks and stores DRAFT over it, or leaves DONE with pending tasks if it raises |
| GoalRuns.PlanIsBoundary | src/zoomac/planner/engine.py:103-149 | every fresh plan is reachable and satisfies what holds between operations |
| GoalRuns.OperationsReachable | src/zoomac/planner/engine.py:192-362 | reachability carries over every sequence of operations |
| GoalStops.RowAfter | src/zoomac/planner/engine.py:213-331 | at the end of a step the row of each ready task is what its own turn, with the answers used up by then, made of it |
| GoalStops.RowsAppended | src/zoomac/planner/executor.py:197-211 | a step appends rows exactly when some turn ends in a replacement |
| GoalStops.LeavesReadyIff | src/zoomac/planner/engine.py:342-351 | for every goal, a run that stops leaves a ready task behind exactly when in its last step a failed task was put back with attempts left or was replaced |
| GoalStops.LeavesBlockedIff | src/zoomac/planner/engine.py:242-270 | a step leaves blocked exactly the tasks that were and the ready ones the gate asks about |
| GoalStops.BlockedReachableIff | src/zoomac/planner/engine.py:396-419 | after a step, blocked tasks can be found by a message exactly when every task is settled or blocked |
| GoalStops.RunBlockedReachableIff | src/zoomac/planner/store.py:158-166 | the same after every number of steps of a run |
| GoalStops.StoppedRun | src/zoomac/planner/engine.py:342-351 | both together for a whole stopped run |
| GoalStops.BlockedBehind | src/zoomac/planner/engine.py:396-419 | a concrete goal that stays EXECUTING with a blocked task and one waiting for it when the run stops |
| GoalOutcomes.StepStores | src/zoomac/planner/engine.py:213-331 | every ready task the gate lets pass is executed once, with an answer of its own in the order of the tasks; it stores exactly the text returned or the error raised, is put back, given up or set aside by attempts and reply; replacements add the rows their specs describe; all else is held back by the gate or unchanged; the status is the completion check's, or FAILED by an abort, or kept |
| GoalOutcomes.TurnMeans | src/zoomac/planner/executor.py:42-69 | what one turn stores, by kind of task and outcome |
| GoalAnswers.RefusesExactly | src/zoomac/planner/approval.py:104-160 | an approval answered "no", "n", "deny" or "reject", in any case and with outer white space, fails the task, stores nothing and reopens nothing; any other answer puts it back and reopens a blocked goal |
| GoalAnswers.StoresExactly | src/zoomac/planner/approval.py:116-160 | exactly which answers store which session, command or path rule |
| GoalAnswers.RepliesExactly | src/zoomac/planner/approval.py:107-160 | exactly which reply an approval gets |
| GoalAnswers.AnswerableExactly | src/zoomac/planner/approval.py:66-104 | an answer reaches the blocked rows that take text and those whose reason asks for an approval or a confirmation |
| GoalAnswers.TextCompletes | src/zoomac/planner/approval.py:72-102 | text for a task that waits for input or a credential completes it with the text, or with its fixed sentence |
| GoalAnswers.QuestionOffers | src/zoomac/planner/approval.py:167-188 | the question ends with the list of its options |
| GoalAnswers.OptionsWork | src/zoomac/planner/approval.py:104-188 | each option a question offers, given back, has the effect it names |
| GoalAnswers.JudgedAs | src/zoomac/planner/approval.py:14-25 | as which action each kind of task is judged and named in the question |
| GoalFate.NarrowestIsNarrow | src/zoomac/planner/approval.py:113-156 | any rule that lets a task pass also lets pass every task waiting for input that the task's narrowest rule does |
| GoalFate.FinishesEased | src/zoomac/planner/engine.py:192-340 | what can be completed in some order stays so with easier rows and fewer rules |
| GoalFate.OpBack | src/zoomac/planner/engine.py:192-362 | what can be completed after any operation can be completed before it, after what the operation completes or parks |
| GoalFate.FinishOne | src/zoomac/planner/engine.py:192-362 | the next task of an order is completed by answering, storing its rule, stepping and answering again |
| GoalFate.CompletedIff | src/zoomac/planner/engine.py:192-362 | some operations and answers complete a task exactly when some order of tasks up to it, each completable after its dependencies under the narrowest rules, contains it |
| GoalFate.StartedIff | src/zoomac/planner/store.py:215-225 | some operations and answers take a pending task out of PENDING exactly when the goal has not FAILED and some order of earlier tasks completes all it depends on |
| GoalFate.StartedIffAncestors | src/zoomac/planner/store.py:215-225 | for that every unfinished ancestor must be completable by itself, and this is enough unless the gate asks about one that waits for input, which it never does where memory queries need no approval |
| GoalFate.WaitMoves | src/zoomac/planner/executor.py:58-64 | in one operation a task that waits for input becomes DONE exactly by an answer that reaches it, and blocked exactly by a step in which the gate asks about it |
| GoalFate.WaitDoneIff | src/zoomac/planner/approval.py:91-102 | after any operations it is DONE exactly when some answer reached it, and blocked only after the gate asked |
| GoalFate.AskedBeforeAnswered | src/zoomac/planner/executor.py:58-64 | an answer reaches one that was PENDING only after a step in which the gate asked about it |
| GoalFate.UnaskedHoldsUp | src/zoomac/planner/executor.py:58-64 | one the gate does not ask about is never completed, and no pending task that depends on it ever leaves PENDING |
| GoalFate.DoomedCannotStart | src/zoomac/planner/store.py:218-223 | in particular a task with a FAILED or SKIPPED ancestor cannot be started |
| GoalFate.InputNeverComes | src/zoomac/planner/executor.py:58-64 | a concrete goal of such a task and a dependent one |
| GoalFate.ApprovalSilencesTheGate | src/zoomac/planner/approval.py:145-156 | a concrete goal of three tasks, each completable but for the others, whose last one is never started |
| GoalEngine.GoalStore.GetReadyTasks | src/zoomac/planner/store.py:215-225 | the scan returns the ready list |
| GoalEngine.GoalStore.FindBlockedGoal | src/zoomac/planner/store.py:158-166 | finds the most recently created blocked goal of the conversation, and one exactly if there is one |
| GoalEngine.GoalStore.RecoverRunning | src/zoomac/planner/store.py:256-262 | recovery applies the recovery write to every goal and returns how many rows were running |
| GoalEngine.RunningCounted | src/zoomac/planner/store.py:256-262 | the count is the number of running rows of all goals |
| GoalEngine.TurnComes | src/zoomac/planner/engine.py:207-213 | in a step's batch, each listed task is ready when its turn comes |
| GoalEngine.GoalEngine.CreatePlan | src/zoomac/planner/engine.py:103-149 | row-by-row planning stores exactly the planned goal under a new id, also when it fails half-way |
| GoalEngine.GoalEngine.ApproveGoal | src/zoomac/planner/engine.py:156-170 | issues the approval writes, or reports a missing goal |
| GoalEngine.GoalEngine.HandleUserInput | src/zoomac/planner/approval.py:66-160 | the search and the writes have exactly the effect, rule and reply of the input operation |
| GoalEngine.GoalEngine.EvaluateTask | src/zoomac/planner/approval.py:37-64 | the gate answers as the stored rules and the risk table judge, and only the log changes |
| GoalEngine.GoalEngine.Replan | src/zoomac/planner/executor.py:181-213 | inserting replacements in a loop and skipping issues the replanning writes |
| GoalEngine.GoalEngine.StoreFailure | src/zoomac/planner/engine.py:309-331 | issues the failure writes and asks the planner exactly on the last attempt |
| GoalEngine.GoalEngine.RunTask | src/zoomac/planner/engine.py:213-331 | the gate and execution of one task amount to its turn |
| GoalEngine.GoalEngine.CheckGoalCompletion | src/zoomac/planner/engine.py:383-419 | one pass over the rows stores the verdict on them and reports it |
| GoalEngine.GoalEngine.Step | src/zoomac/planner/engine.py:192-340 | the stored goal becomes that of the step operation and the result lists the tasks by how they ended |
| GoalEngine.ReportMeaning | src/zoomac/planner/engine.py:192-340 | what the result of a step says, by the rows before and after it |
| GoalEngine.VerdictMeaning | src/zoomac/planner/engine.py:383-419 | what the completion check finds, row by row |
| GoalEngine.GoalEngine.RunGoal | src/zoomac/planner/engine.py:342-351 | terminates after at most one step more than the tasks not DONE plus the replacements the planner may add, at the first step that stops |
| CoreLoop.CoreLoop.StartGoal | src/zoomac/core/loop.py:181-192 | a successful plan is approved and gets one runner; a failed one stays without a runner |
| CoreLoop.CoreLoop.AnswerGoal | src/zoomac/core/loop.py:121-131 | the blocked goal takes the input and gets a runner exactly if it has none |
| CoreLoop.CoreLoop.HandleMessage | src/zoomac/core/loop.py:105-138 | a message reaches the status report, the newest blocked goal of its conversation, a new goal or the conversation, in that order, and every goal keeps at most one runner |
| CoreLoop.CoreLoop.HandleSchedule | src/zoomac/core/loop.py:145-179 | a job gets a goal with one runner, or raises when planning fails; the retry job replays dead letters, up to one whose id is taken; the others change nothing |
| CoreLoop.CoreLoop.ProcessEvents | src/zoomac/core/loop.py:205-224 | over every sequence of messages, jobs and stopping runners, a goal without a runner that is not stored as BLOCKED stays exactly as it is |
| CoreLoop.CoreLoop.RunnerRuns | src/zoomac/core/loop.py:194-203 | a runner steps its goal until it stops and then leaves the table; unless the goal is BLOCKED it is then out of reach |
| Approval.NewestSelects | src/zoomac/autonomy/pipeline.py:254-275 | the scan finds a rule exactly when some stored rule applies, and the one found does |
| Approval.DecisionMeaning | src/zoomac/autonomy/pipeline.py:118-178 | the decision is what the rule set means: any matching deny denies, else any matching allow allows, else the risk decides |
| Approval.OutcomeExactly | src/zoomac/autonomy/pipeline.py:118-178 | refused exactly if a deny rule covers the request, else allowed exactly if an allow rule does or the risk is low, else asked about |
| Approval.DecisionNames | src/zoomac/autonomy/pipeline.py:118-178 | a decision names the newest deciding rule with scope and value and has the mode that goes with it, or names the action |
| Approval.CoversExactly | src/zoomac/autonomy/pipeline.py:254-275 | a session rule covers its session, a command rule the commands that begin with it, a path rule the paths that begin with it, each for its action only |
| Approval.OutcomeIgnoresOrder | src/zoomac/autonomy/pipeline.py:224-242 | the outcome depends only on the set of stored rules |
| Approval.AllowRuleLasts | src/zoomac/autonomy/pipeline.py:180-204 | a matching allow rule allows for as long as no deny rule matches, whatever else is stored |
| Approval.AddingARule | src/zoomac/autonomy/pipeline.py:277-299 | what storing one more rule does to every outcome; it never makes the user be asked again |
| Approval.ApprovalPipeline.MatchRule | src/zoomac/autonomy/pipeline.py:254-275 | the newest-first loop returns the newest applying rule |
| Approval.ApprovalPipeline.Evaluate | src/zoomac/autonomy/pipeline.py:118-178 | evaluation gives the decision and logs it, changing no rule |
| Approval.ApprovalPipeline.AddRule | src/zoomac/autonomy/pipeline.py:277-299 | appends the rule, or nothing without a database |
| ArtifactFormat.Parse | src/zoomac/planner/approval.py:224-245 | the line loop computes the parse function |
| ArtifactFormat.ParseOfFormat | src/zoomac/planner/executor.py:88-92 | parsing the printed format gives the stripped path and the content before its first line that opens with a fence |
| ArtifactFormat.ParsedUnfenced | src/zoomac/planner/approval.py:224-245 | without fences, what precedes the line with the path is dropped and what follows is the content, unless the path is blank |
| ArtifactFormat.RoundTripIff | src/zoomac/planner/approval.py:224-245 | path and content come back exactly when the path has no outer white space and no content line opens with a fence |
| EventQueue.ActConserves | src/zoomac/core/queue.py:81-227 | every action keeps each pushed event in exactly one place with its payload, priority and timestamp, attempts equal to pops, and only used-up events dead |
| EventQueue.PushConserves | src/zoomac/core/queue.py:81-91 | a push does so exactly unless its id is that of a dead letter |
| EventQueue.RunConserves | src/zoomac/core/queue.py:81-227 | the same over every run of pushes, pops, completions, failures, recoveries and replays |
| EventQueue.WorkShrinks | src/zoomac/core/queue.py:136-166 | serving a pending event once uses up some of the attempts left |
| EventQueue.ServesKeeps | src/zoomac/core/loop.py:215-224 | what the consumer keeps at every point of draining |
| EventQueue.DrainMeaning | src/zoomac/core/loop.py:215-224 | a drained queue was served in priority order, with distinct keys one event's attempts in one block, within the sum of max(1, 3 - attempts), and only used-up events became dead letters |
| EventQueue.DrainFates | src/zoomac/core/loop.py:215-224 | exactly the pending events are served; one whose handler returned leaves the table at once, is served no more and is no dead letter; every other becomes a dead letter, used up, with the last error raised |
| EventQueue.FindNext | src/zoomac/core/queue.py:100-108 | finds a pending event no other comes before, and one exactly if any is pending |
| EventQueue.EventQueue.PushEvent | src/zoomac/core/queue.py:81-91 | inserts a fresh row, or raises for an id already present; conservation is kept exactly unless the id is a dead letter's |
| EventQueue.EventQueue.PopEvent | src/zoomac/core/queue.py:98-120 | marks a first event as processing and counts the attempt, conserving events |
| EventQueue.EventQueue.FailEvent | src/zoomac/core/queue.py:141-166 | requeues, or moves to the dead letters at three attempts, conserving events; unknown ids are ignored |
| EventQueue.EventQueue.Recover | src/zoomac/core/queue.py:180-189 | makes every processing event pending again and counts them |
| EventQueue.EventQueue.ReplayDeadLetter | src/zoomac/core/queue.py:191-209 | moves one dead letter back with no attempts used, conserving events, or raises if its id is taken |
| EventQueue.ReplayedFirst | src/zoomac/core/queue.py:220-227 | replaying the first n dead letters one by one empties exactly their places, files each with no attempts used and touches no other row |
| EventQueue.EventQueue.ReplayAll | src/zoomac/core/queue.py:211-227 | replays the oldest dead letters up to the limit, stopping with an exception at the first whose id is taken, and conserves events |
| EventQueue.EventQueue.Drain | src/zoomac/core/loop.py:215-224 | popping, then completing when the handler returned and failing when it raised, is a run of the consumer, conserves events and leaves nothing pending; newly completed are exactly the events handled, newly dead exactly the pending ones never handled |
| Messages.PairedAppend | src/zoomac/brain/client.py:147-189 | paired histories concatenate to a paired history |
| Messages.PairedCut | src/zoomac/brain/compactor.py:85-87 | a cut leaves two paired halves exactly when it does not fall between calls and their results |
| History.ExchangePaired | src/zoomac/brain/client.py:128-189 | a continuing response and its results, safe tools first, hold exactly one result per call |
| History.ExchangesPaired | src/zoomac/brain/client.py:91-189 | so does any number of exchanges, whatever models and handlers answer |
| History.ExchangesAlternate | src/zoomac/brain/client.py:147-189 | n exchanges are n assistant messages with what the responses leave, each followed by a user message with its results |
| History.KeptMeaning | src/zoomac/brain/client.py:128-138 | of a response exactly the calls and the texts worth keeping are stored, in order, as they are |
| History.ResultsMeaning | src/zoomac/brain/client.py:149-189 | one result per call, with its id and the text running it gave, safe calls first, both kinds in order |
| History.WordsMeaning | src/zoomac/brain/client.py:124-142 | the text of a response consists of its non-empty texts in order |
| History.KeepsExactly | src/zoomac/brain/client.py:128-131 | which texts are stored: those not empty, and in the other loop those that show anything |
| History.SafeExactly | src/zoomac/brain/optimizer.py:9-9 | which tools are safe |
| History.SpentMeaning | src/zoomac/brain/client.py:116-121 | the usage returned is the sum over the replies |
| History.RunWithTools | src/zoomac/brain/client.py:64-195 | extends the history by whole exchanges only, as many as continue within the limit, keeps it paired, and returns the last response's text and the usage of all |
| History.ShapeDecidesPairing | vscode-extension/src/backend/localAgentBackend.ts:1162-1199 | roles and ids alone decide whether a history is paired |
| History.CompressionKeepsShape | vscode-extension/src/backend/localAgentBackend.ts:1162-1199 | summarising long results keeps roles, ids and pairing |
| History.CompressedMeaning | vscode-extension/src/backend/localAgentBackend.ts:1162-1199 | exactly the results of user messages longer than two hundred characters are summarised, under the name of their call in the assistant's message before |
| History.NameMeaning | vscode-extension/src/backend/localAgentBackend.ts:1177-1187 | the name is that of the first call with the id, and "tool" without a name or a call |
| History.LocalAgent.CompressHistoryToolResults | vscode-extension/src/backend/localAgentBackend.ts:1162-1199 | the in-place loops summarise exactly the long results, by the tool that made them |
| History.RestoredAllPaired | vscode-extension/src/backend/localAgentBackend.ts:250-298 | a restored history is paired whatever was saved |
| History.RestoredMeaning | vscode-extension/src/backend/localAgentBackend.ts:250-298 | what each saved entry becomes, results cut to two thousand characters |
| History.LocalAgent.RestoreHistory | vscode-extension/src/backend/localAgentBackend.ts:250-298 | the history is replaced by the restored one |
| Display.WellTypedShows | vscode-extension/src/backend/localAgentBackend.ts:1029-1080 | a call whose input has the types the tool asks for can be shown; a shell call without a command, or a write of something else than text, cannot |
| Display.RaisesExactly | vscode-extension/src/backend/localAgentBackend.ts:1029-1080 | tool by tool, on which inputs showing an executed call raises |
| Display.SpinnerRaisesExactly | vscode-extension/src/backend/localAgentBackend.ts:1355-1381 | on which inputs composing the spinner or the question raises |
| History.LoopPairing | vscode-extension/src/backend/localAgentBackend.ts:714-865 | a turn keeps a paired history paired exactly unless the last response it stores carries calls |
| History.LeavesCallOpenIff | vscode-extension/src/backend/localAgentBackend.ts:714-865 | which it does exactly when a response has calls but did not stop for tools, or did and one of its calls cannot be carried through |
| History.BreaksOffExactly | vscode-extension/src/backend/localAgentBackend.ts:764-860 | when a turn breaks off, call by call and by what the user consents to |
| History.WellTypedCarriesOn | vscode-extension/src/backend/localAgentBackend.ts:760-865 | no response of well-typed calls breaks the turn off, whatever the user consents to |
| History.LocalAgent.ExecuteTools | vscode-extension/src/backend/localAgentBackend.ts:758-865 | the safe calls and then the others, by consent, give one result per call, or nothing exactly when one of them raises |
| History.LocalAgent.CompactIfNeeded | vscode-extension/src/backend/localAgentBackend.ts:880-921 | the history becomes the summarised one exactly when the token estimate has reached seven tenths of the context, a summary was made and enough messages are left |
| History.LocalAgent.RunToolLoop | vscode-extension/src/backend/localAgentBackend.ts:644-877 | compaction, then whole exchanges until interrupted, ended, broken off or out of iterations |
| History.LocalAgent.HandleSlashCommand | vscode-extension/src/backend/localAgentBackend.ts:356-487 | each command does to the history what it should, and other texts are left to the turn |
| History.CommandsExactly | vscode-extension/src/backend/localAgentBackend.ts:356-360 | the first word in lower case decides which command a text is, and the trimmed rest is what it is about |
| History.CommandEffects | vscode-extension/src/backend/localAgentBackend.ts:360-487 | what each command does to the history, by its word |
| History.LocalAgent.SendMessage | vscode-extension/src/backend/localAgentBackend.ts:602-642 | one user message is a command or runs one turn |
| Compaction.CompactContext | src/zoomac/brain/compactor.py:66-137 | compacts exactly above the limit with enough messages and a summary; the suffix is kept and the estimate drops by exactly the tokens reported |
| Compaction.SummarisedMeaning | src/zoomac/brain/compactor.py:104-137 | a compacted history is the worded summary, its acknowledgement and the most recent messages as they were |
| Compaction.TokensMeaning | vscode-extension/src/local/contextCompactor.ts:20-23 | four characters make a token, rounded up by one compactor and down by the other |
| Compaction.MessageCounts | vscode-extension/src/local/contextCompactor.ts:25-41 | what a message counts, block by block |
| Compaction.EstimateTotal | src/zoomac/brain/compactor.py:35-40 | the loop computes the sum of the message estimates |
| Compaction.CompactionPairing | src/zoomac/brain/compactor.py:85-125 | compaction keeps a paired history paired exactly when the message before the cut made no call |
| Compaction.ParityKeepsPairs | src/zoomac/brain/compactor.py:85-125 | on an alternating history that starts and ends with a user message no compaction separates a call from its results, however many messages are kept |
| Sessions.SendPairing | vscode-extension/src/backend/localAgentBackend.ts:602-642 | a user message leaves any paired history paired exactly when no compaction it causes cuts right after calls and its turn leaves no call open |
| Sessions.ConversationPairedIff | vscode-extension/src/backend/localAgentBackend.ts:250-298 | over every conversation, commands included, from any paired history, a restored one included, all stays paired exactly when that holds of every message |
| Sessions.CompactionKeeps | vscode-extension/src/local/contextCompactor.ts:116-198 | compaction at the start of a turn after an answered one leaves a paired history in the shape that makes the next one harmless too |
| Sessions.TurnKeeps | vscode-extension/src/backend/localAgentBackend.ts:644-877 | a completed turn, compacted first or not, does no harm and leaves an answered conversation answered |
| Sessions.CompactCommand | vscode-extension/src/backend/localAgentBackend.ts:390-397 | on an answered conversation "/compact" keeps the pairing, and leaves it answered, exactly when no compaction takes place or the message before the cut makes no call |
| Sessions.TurnAfterReview | vscode-extension/src/backend/localAgentBackend.ts:410-435 | the turn after a review keeps the pairing exactly when it does not compact or the message before its cut makes no call |
| Sessions.AfterInterruption | vscode-extension/src/backend/localAgentBackend.ts:649-654 | so does the turn after an interrupted one |
| Sessions.ConversationStaysPaired | vscode-extension/src/backend/localAgentBackend.ts:602-877 | over every conversation of completed turns without reviews, all stays paired exactly when no "/compact" cuts right after calls |
| Sessions.EveryRequestFollowsProtocol | vscode-extension/src/local/providers/openai.ts:370-450 | every request after a conversation without harm, from any paired history, follows the tool protocol exactly when its calls carry ids, if its compaction does not cut after calls, and exactly when it does not, if all calls carry ids |
| Sessions.EveryRequestOfCompletedTurns | vscode-extension/src/local/providers/openai.ts:370-450 | so every request of a conversation of completed turns with named calls, from the beginning or any answered history, whose "/compact" commands fit, follows it |
| BrokenSessions.CompactSeparates | vscode-extension/src/backend/localAgentBackend.ts:390-397 | for every setup and a model context of the smallest size, one completed turn from an empty conversation after which "/compact" breaks the pairing |
| BrokenSessions.ReviewSeparates | vscode-extension/src/backend/localAgentBackend.ts:425-428 | the same turn, a review and a turn that compacts break it |
| BrokenSessions.InterruptionSeparates | vscode-extension/src/backend/localAgentBackend.ts:649-654 | a cancelled first turn and a turn that compacts break it |
| BrokenSessions.OpenCallStored | vscode-extension/src/backend/localAgentBackend.ts:714-732 | a first turn whose response carries a call without stopping for tools breaks it |
| BrokenSessions.BareCallStaysOpen | vscode-extension/src/backend/localAgentBackend.ts:1039-1046 | for every setup, a first turn whose model calls the shell without a command stores the call and no result |
| OpenAiMessages.EnforceAlternation | vscode-extension/src/local/providers/openai.ts:530-570 | overwriting the last message in place computes the alternation |
| OpenAiMessages.ConvertMessages | vscode-extension/src/local/providers/openai.ts:370-450 | the push loop and the pass compute conversion then alternation, and so say what the history says |
| OpenAiMessages.AlternatedIsNormal | vscode-extension/src/local/providers/openai.ts:530-570 | no two neighbours of the output could still be merged |
| OpenAiMessages.AlternationIdempotent | vscode-extension/src/local/providers/openai.ts:530-570 | a second pass changes nothing, and the pass fixes exactly the normal forms |
| OpenAiMessages.AlternationLosesNothing | vscode-extension/src/local/providers/openai.ts:545-558 | tool messages and tool-call messages keep place and content, and what each role says is unchanged apart from white space |
| OpenAiMessages.ConversionSays | vscode-extension/src/local/providers/openai.ts:370-450 | what is sent says what the history says: every visible character under its speaker, every call message with text, ids, names and inputs, every result that names its call with its content, with the fallbacks for blank fields |
| OpenAiMessages.MergedApart | vscode-extension/src/local/providers/openai.ts:545-558 | merged texts are kept apart by a blank line |
| OpenAiMessages.AcceptsIffProtocol | vscode-extension/src/local/providers/openai.ts:398-435 | reading left to right with owed calls accepts exactly the sequences in which every message is followed by one tool message per call and no other |
| OpenAiMessages.ConversionKeepsProtocol | vscode-extension/src/local/providers/openai.ts:370-450 | a paired history converts to such a sequence exactly when every call in it carries an id |
| OpenAiMessages.UnnamedCallBreaks | vscode-extension/src/local/providers/openai.ts:398-432 | a paired history of one call without an id and its result that does not, whatever id is minted |
| OpenAiMessages.LooseResultsBreak | vscode-extension/src/local/providers/openai.ts:398-411 | results whose calls are gone from the history break the protocol |
| Retriever.Dedup | vscode-extension/scripts/memgate/retriever.py:210-251 | the nested loops remove only results linked by close, ever newer (or as new and earlier listed) results to a kept one, keep no close pair, and change nothing if there is none |
| Retriever.CompareWithLater | vscode-extension/scripts/memgate/retriever.py:231-249 | one outer iteration extends this to one more result, also when it removes that result and breaks |
| Retriever.KeptMeaning | vscode-extension/scripts/memgate/retriever.py:251-251 | the kept positions are exactly those not removed, in order |
| Retriever.DedupIsFar | vscode-extension/scripts/memgate/retriever.py:210-251 | no two kept results are close |
| Retriever.RemovedIsRepresented | vscode-extension/scripts/memgate/retriever.py:242-249 | every removed result has a kept one, newer or as new and listed before it, at the end of its chain |
| Retriever.NewestSurvives | vscode-extension/scripts/memgate/retriever.py:242-249 | the first of the newest results is always kept |
| Retriever.KeptKeeps | vscode-extension/scripts/memgate/retriever.py:251-251 | order, distinct ids and membership survive deduplication |
| Retriever.AddedMeaning | vscode-extension/scripts/memgate/retriever.py:157-166 | adding an answer keeps ids distinct, keeps what was found and, without a limit, finds every id of it |
| Retriever.MergedMeaning | vscode-extension/scripts/memgate/retriever.py:57-152 | merging the tiers finds every id of every answer exactly once and nothing else |
| Retriever.ByRelevanceSorts | vscode-extension/scripts/memgate/retriever.py:168-169 | sorting gives the same results in descending relevance, ids still distinct |
| Retriever.RankedMeaning | vscode-extension/scripts/memgate/retriever.py:168-174 | ranking, boosted or not, is sorted and holds exactly the weighed results |
| Retriever.CommonIdsMeaning | vscode-extension/scripts/memgate/retriever.py:82-85 | the common ids are those found for every entity |
| Retriever.CollectedCovers | vscode-extension/scripts/memgate/retriever.py:130-166 | with top_k or more distinct ids from the tiers exactly these are collected; with fewer, all of them and all the global search gives for top_k and as many more, unless twice top_k are reached |
| Retriever.CollectedFirst | vscode-extension/scripts/memgate/retriever.py:130-166 | of several answers with one id the first is taken, the global search coming last |
| Retriever.EntityTier | vscode-extension/scripts/memgate/retriever.py:66-99 | with two or more entities, each id found is given once, with the result listed last for it, those found for every entity first |
| Retriever.Merge | vscode-extension/scripts/memgate/retriever.py:130-166 | the loops over the tiers and the fill-up compute the collected answers |
| Retriever.Search | vscode-extension/scripts/memgate/retriever.py:130-179 | ranks everything that is searched, deduplicates and cuts to top_k: at most that many, distinct, sorted by relevance, pairwise not close, and the first top_k of the ranked when no two of those are close |
| Retriever.SearchMeaning | vscode-extension/scripts/memgate/retriever.py:176-179 | deduplicating a ranked list and cutting it keeps it sorted and distinct and leaves no close pair |
| Retriever.AssembleContext | vscode-extension/scripts/memgate/retriever.py:254-286 | packs the longest run of contents that fit and cuts the next one if more than fifty characters remain |
| Retriever.PackedLength | vscode-extension/scripts/memgate/retriever.py:271-286 | the context is one character over the budget exactly when a piece was cut, and otherwise empty or two below |
| Retriever.PackedIsLongest | vscode-extension/scripts/memgate/retriever.py:271-286 | all contents are packed if they fit with a margin of two, and otherwise the first left out would not have fitted |
| Facts.Latest | vscode-extension/scripts/memgate/store.py:641-647 | following supersession ends at an active, never earlier fact of the same entity and attribute |
| Facts.AlwaysVersioned | vscode-extension/scripts/memgate/engine.py:433-452 | over any mix of ingestions every supersession points to a later fact about the same thing |
| Facts.AgreeAfterStoring | vscode-extension/scripts/memgate/engine.py:261-264 | exactly when storing a fact leaves all active facts of a key with its most recent value, for each way of superseding |
| Facts.StructuredDisagrees | vscode-extension/scripts/memgate/engine.py:441-452 | two concrete structured entities after which active facts disagree |
| Facts.PlainIngestionAgrees | vscode-extension/scripts/memgate/engine.py:248-264 | with plain ingestion all active facts of a key share the most recently extracted value |
| Facts.PlainSupersedes | vscode-extension/scripts/memgate/engine.py:248-264 | an extracted fact is appended and supersedes exactly the active facts about the same thing with another value |
| Facts.StructuredSupersedes | vscode-extension/scripts/memgate/engine.py:433-452 | an entity with a blank part changes nothing; another is appended and supersedes all active facts about the same thing exactly if it names a previous value |
| Facts.FactStore.FindActive | vscode-extension/scripts/memgate/store.py:649-671 | returns exactly the active facts of the key, newest first |
| Facts.FactStore.Ingest | vscode-extension/scripts/memgate/engine.py:248-264 | the loops store each fact and supersede those that contradict it |
| Facts.FactStore.IngestStructured | vscode-extension/scripts/memgate/engine.py:433-452 | entities with a blank part are skipped; only one that names a previous value supersedes |
| Topics.TopicModel.Gather | vscode-extension/scripts/memgate/topics.py:64-77 | collects exactly the unassigned terms that overlap with the seed |
| Topics.TopicModel.Extract | vscode-extension/scripts/memgate/topics.py:50-115 | terminates; groups partition the terms, members meet the threshold with their seed, later groups are below it, and clusters get consecutive ids never used before |
| Topics.GroupingGrows | vscode-extension/scripts/memgate/topics.py:63-77 | gathering one more group keeps all that |
| Topics.ReportedIds | vscode-extension/scripts/memgate/topics.py:79-112 | the clusters are exactly the groups of two or more, with consecutive ids |
| Topics.OverlapMeaning | vscode-extension/scripts/memgate/topics.py:64-77 | terms overlap exactly when the share of neurons they have in common reaches the threshold, none of none being zero |
| Topics.AllNeuronsMeaning | vscode-extension/scripts/memgate/topics.py:79-112 | a cluster's neurons are those of its terms |
| JsonRpc.ReadOn | vscode-extension/src/local/mcpClient.ts:188-190 | reading on from the unfinished line gives the lines and the rest of the whole stream |
| JsonRpc.DispatchConcat | vscode-extension/src/local/mcpClient.ts:192-208 | dispatching lines in two portions is dispatching them at once |
| JsonRpc.DispatchAccounted | vscode-extension/src/local/mcpClient.ts:192-208 | whatever lines arrive, every issued id is waiting or settled exactly once, and nothing else is |
| JsonRpc.FirstResponseDecides | vscode-extension/src/local/mcpClient.ts:192-208 | a waiting request resolves, or rejects if the error is set, by the first response to it, and waits on without one |
| JsonRpc.McpClient.SendRequest | vscode-extension/src/local/mcpClient.ts:159-180 | a new id waits for its response, or is refused when the process is gone |
| JsonRpc.McpClient.TimeOut | vscode-extension/src/local/mcpClient.ts:167-170 | a request whose timer fires is rejected once and no longer waits |
| JsonRpc.McpClient.Exit | vscode-extension/src/local/mcpClient.ts:72-78 | rejects exactly what still waits, so every issued id is settled exactly once |
| JsonRpc.McpClient.OnData | vscode-extension/src/local/mcpClient.ts:188-209 | dispatches the complete lines and keeps the rest |
| JsonRpc.McpClient.OnChunks | vscode-extension/src/local/mcpClient.ts:63-66 | the lines dispatched and what is left depend only on the concatenated stream |

## Left out

- Storage: SQLite, JSON, timestamp text, transactions and storage errors; tables are maps and sequences, and insertion order is creation order.
- Row fields no modelled branch reads: task events, goal context, output summaries, risk metadata, result messages, source memory ids, confidence.
- The executors themselves (file system, sandbox, gateway, memory, sub-agents): any text or exception is an outcome.
- GoalSafety.RunKeepsInv: planning writes are enabled only while the goal is PLANNING, so an approval that arrives while the planning model is still answering is not covered; `ApprovedWhilePlanning` says what happens then.
- GoalFate.CompletedIff: operations are whole, and the engine's own; a crash right after the executor parks a task leaves it blocked, and then it can be answered. Which answers the message router passes on is stated in `GoalStops` and `CoreLoop`.
- GoalRuns.OperationsReachable: a step and user input of the same goal that interleave are covered write by write, through `GoalSafety`, not as whole operations.
- GoalRuns.StartedOnlyIfPermitted: the rule table is fixed for the step; `GatedAtEveryTurn` lets it change between turns.
- GoalEngine.GoalEngine.CreatePlan: the decomposition prompt and the skill section are not modelled; the plan is a parameter.
- CoreLoop.CoreLoop.HandleMessage: the text of replies that start a goal and the memory counts of the status report are not modelled; planning is taken as one step.
- CoreLoop.CoreLoop.HandleSchedule: memory consolidation and the texts of job reports are not modelled.
- CoreLoop.CoreLoop.ProcessEvents: a runner's steps are taken together at the moment it stops; system events, which change nothing, are left out.
- ArtifactFormat.RoundTripIff: white space and upper case are those of ASCII.
- EventQueue.EventQueue.PopEvent: events with equal priority and timestamp may come in any order among themselves, as the query leaves it open; waiting for a notification is not modelled.
- EventQueue.EventQueue.ReplayAll: the order of moved_at is the order of moving.
- History.RunWithTools: an exception of the model call is not modelled.
- History.LocalAgent.RunToolLoop: emitted interface messages (other than that composing them may raise) and memory ingestion are not modelled; the text a denied call is answered with is part of its result text.
- History.LocalAgent.SendMessage: `sendMessageWithImages`, a second way to start a turn that reads no commands and does not reset a cancellation, is not modelled.
- Display.WellTypedShows: the number a text or a list is compared as is a given function; every tool's handler is taken to answer with a text.
- History.LocalAgent.CompactIfNeeded: seven tenths of the context are compared exactly, without the rounding of the factor 0.7.
- History.LocalAgent.HandleSlashCommand: the texts pushed for "/commit", "/plan" and a review are functions of the setup; "/model" changes only what later messages carry as the context size; white space and case are those of ASCII.
- History.LocalAgent.RestoreHistory: the input rebuilt for a restored call is a parameter; random ids are given.
- Compaction.CompactContext: the limit is a parameter, so the rounding of the threshold share is not modelled; the length of a call's printed input stands for its text.
- OpenAiMessages.ConvertMessages: minted call ids are given by a function; JSON text of inputs is taken as is; white space is that of ASCII.
- Retriever.Dedup: similarity is an arbitrary relation on embeddings; vectors and rounding are not modelled.
- Retriever.Search: the tiers' answers are given as lists; scoring the cluster summaries and choosing the best two is an input.
- Topics.TopicModel.Extract: neuron sets are inputs; centroid and coherence, and the order in which a set is iterated, are not modelled; overlap is compared as reals.
- Facts.FactStore.Ingest: the extraction of facts from text is an input.
- JsonRpc.McpClient.OnData: a multi-byte character split between two chunks is not modelled; message contents beyond id and error are not.
- Concurrent turns on one history and several runners of one goal.
- The rest of the repository: user interface, gateways, scheduler, sandbox profiles, risk classes, credentials, prompts, embeddings and the novelty network, sub-agent registry.
