# A verified model of the task, performance, review, gateway, export and comparison cores

This project models the parts of the backend whose correctness depends on more than one function, and
proves what they keep over every run.

- **Tasks and their dependency graph** (`TaskModel`, `DependencyGraph`, `TaskEffects`, `TaskLifecycle`,
  `TaskService`).
  A table of tasks with a five-value status and a `dependsOn` pointer. `TaskModel` gives every request as a
  function from table to table and jobs, `TaskService` is the service as a class that edits its table and
  queue step by step, including the visited-set walk, and `TaskLifecycle` holds the theorems over all runs.
- **The performance table as a cache of the task table** (`Performance`, `PerformanceCache`,
  `PerformanceWorker`). Requests, the overdue cron, calibration upserts and one queue worker interleave; the
  worker reads a user's counts in one step and writes the record in a later one, and a failed job is either
  put back or dropped.
- **The 360-degree review cycle** (`ReviewModel`, `ReviewGeneration`, `ReviewScores`, `ReviewInvariants`,
  `ReviewTheorems`, `ReviewSubmission`, `ReviewEffects`, `ReviewScope`, `ReviewLoops`, `ReviewService`).
  Templates, cycles, reviews, nominations, calibration sessions and the calibration columns of the performance table change together, while the recalculation
  worker writes the other columns of that table and departments are deleted. `ReviewModel` is the state
  machine, `ReviewInvariants` shows what every request keeps, `ReviewTheorems` states what follows for every
  reachable state, and `ReviewLoops` and `ReviewService` are the service's loops and updates over mutable
  tables, proved equal to the state machine.
- **The socket rooms of the gateway** (`SocketRooms`, `SocketEffects`, `LateTails`, `TaskGateway`,
  `SeveralGateways`).
  Connections, disconnections, logouts and organization synchronizations, which are split at their asynchronous
  membership lookup; the tail of a connection may find its socket connected or closed. `SeveralGateways` puts
  any number of gateway objects over the same sockets.
- **The audit log export** (`AuditCsv`, `AuditCsvRoundTrip`) against a strict reader of the quoted-field
  format of section 2 of RFC 4180, with LF line ends.
- **The department comparison** (`DepartmentComparison`, `DepartmentColumns`) against each department computed on
  its own.

The straight-line handlers of `TaskService` and `ReviewService` (creation, editing, deletion, status changes,
approval, rejection, adjustment) are proved to have the effect of the state machine's function of the same
name, and `AnswersStayReachable` carries every theorem about reachable states over to them. Likewise the parts
of `TaskGateway`'s connection handler are proved to be steps of the room protocol.

`TaskEffects`, `ReviewEffects`, `ReviewSubmission`, `SocketEffects` and `DepartmentColumns` say in the columns of
the tables, and without the functions of the state machines, exactly when each operation is accepted and exactly
what it then changes.

`Common` and `Arithmetic` hold what these share. `dafny verify dfyconfig.toml` checks everything.

## How the code is read

- Tables are finite maps. Reviews and nominations are keyed by the columns of their unique constraints, and
  breaking a constraint (or a foreign key) aborts the request.
- One request is one atomic step, with the jobs it enqueues. The overdue cron's query and update are one
  step. The worker is split into its read and its write, a synchronization at its lookup. There is one worker.
- `SocketRooms`, `LateTails` and `TaskGateway` are about one gateway object: its lock, its index, its heartbeat.
- Request validators run before the service: only three statuses can be requested, a nomination names one to
  three people, an adjustment is a number from 1 to 5 with a non-empty note.
- Scores are exact rationals, `Math.round` rounds halves up, identifiers are numbers, times are integers.
- What a request reads from tables of other services (members, profiles, departments) is a parameter that is
  free to change between requests. Row orders that the database does not promise are arbitrary.

## Where the code and the expectation part

- *A failed recalculation.* The worker rethrows so that its job is tried again, but the queue is registered
  without attempts (`src/modules/performance/performance.module.ts:10`), and such a job is dropped. The cache
  theorems range over all runs, with failed jobs dropped or put back: a user's record is brought into agreement
  if and only if a job for the user was queued again after every drop that found the record wrong and no other
  job for the user waiting (`EveryRunConverges`, `DropIsExact`). `DroppedJobIsLost` is a run that ends wrong.
- *The reassignment event* (`src/modules/task/task.service.ts:198`) is built with its two user arguments
  exchanged. Both users get a job, so the cache does not notice.
- *Completed prerequisites.* A completed prerequisite can be reopened, and a completed task can be re-pointed
  at an unfinished one. `ClosureStep` gives the exact condition, `ReopeningBreaksClosure` a run from the empty
  table.
- *Rating labels.* The review score averages the responses that the sender labels as ratings, whether or not
  they answer a rating question. `LabelsDecideTheScale` is the exact condition for the score to stay on its
  scale.
- *The connection handler* runs its tail after several awaits. By then a synchronization may have touched the
  socket, or the socket may have closed. The socket stays in one room if and only if every synchronization that
  came before, finished or in flight, heads for the organization of the tail (`TailKeepsOneRoom`; with the index
  and closed sockets, `TailIsExact`), as when both read the same session. One that heads elsewhere leaves the
  socket in two rooms (`EarlySyncMakesTwoRooms`). A closed socket stays in the user index until `disconnectUser`
  is called for the user (`LateTailLeavesDeadId`, `DeadIdStays`), which makes up for it
  (`LogoutForgivesLateTail`) but which no code of the repository calls. In runs whose tails are otherwise safe
  it touches nothing else (`LateTailsAreConfined`).
- *One gateway.* The class is a provider of three modules (`src/gateway/gateway.module.ts:6`,
  `src/modules/performance/performance.module.ts:13`, `src/modules/notification/notification.module.ts:11`), so
  there are three objects, each with its own lock, index and heartbeat. A lock then excludes only its own
  object's synchronizations, and a socket can end in two rooms (`TwoLocksMakeTwoRooms`). Over any number of
  objects, all sockets stay in one room each if and only if every tail and every move is current
  (`RunIsExact`, `MoveIsExact`).
- *A session's department* is cleared when the department is deleted
  (`prisma/migrations/20260807000226_add_review_cycles/migration.sql:175`), so a session without one need not
  cover the organization (`ClearedDepartmentHidesScope`). The model records for whom a session was opened.
- *The CSV columns* other than name and metadata are not quoted; `ExportReadsBack` is an equivalence.
- *Creating a task* validates the dependency it is given and does not store it.
- *Approving, adjusting and finalizing* never look at the cycle's status; the invariants show what protects
  them (`OnlyWhileCalibrating`, `ApprovedAreThePeerReviews`).

## Model

| member | source | states |
|---|---|---|
| TaskLifecycle.GuardIsExact | src/modules/task/task.service.ts:154-171 | on any table, cyclic or not, re-pointing a task within its organization is refused if and only if writing it would put that task on a cycle |
| TaskLifecycle.NoNewCycles | src/modules/task/task.service.ts:137-222 | no accepted request of any kind puts any task on a cycle that it was not on before |
| TaskService.TaskService.LeadsTo | src/modules/task/task.service.ts:159-170 | the visited-set walk terminates on every table and answers whether some number of steps from the parent meets the edited task |
| DependencyGraph.SafeEdge | src/modules/task/task.service.ts:159-170 | a pointer to a parent that does not lead back creates no cycle anywhere and takes the task off any it was on |
| DependencyGraph.UnsafeEdge | src/modules/task/task.service.ts:159-170 | a pointer to a parent that leads back closes a cycle |
| DependencyGraph.FirstVisit | src/modules/task/task.service.ts:159-170 | a walk that meets a task meets it a first time, with no earlier visit |
| DependencyGraph.ClosedHoldsWalks | src/modules/task/task.service.ts:159-170 | visited tasks closed under their pointers contain every task any walk from them meets, so the walk may stop at a revisit |
| TaskEffects.ReachesIsChain | src/modules/task/task.service.ts:159-170 | a parent leads to a task if and only if a list of tasks, each depending on the next, links them |
| TaskEffects.CycleIsChain | src/modules/task/task.service.ts:159-170 | a task is on a cycle if and only if such a list of more than one task leads from it back to it |
| TaskLifecycle.StepKeepsWellFormed | src/modules/task/task.service.ts:289-318 | every request, cron run and department deletion keeps the graph acyclic, without dangling or cross-organization pointers, and the completion stamps exact |
| TaskLifecycle.ReachableIsWellFormed | src/modules/task/task.service.ts:34-355 | in every reachable table no chain of dependencies returns to its start, every prerequisite exists in the same organization, and a completion stamp is set exactly on COMPLETED and COMPLETED_LATE tasks |
| TaskLifecycle.OverdueOnlyCompletesLate | src/modules/task/task.service.ts:237-271 | an overdue task that changes status becomes completed-late, and only its own deletion removes it |
| TaskLifecycle.OperationsStayReachable | src/modules/task/task.service.ts:34-355 | every operation, with the three statuses that can be requested, leads from a reachable table to a reachable one |
| TaskEffects.CreateEffect | src/modules/task/task.service.ts:34-81 | accepted exactly for a member, in a department of the organization where the assignee is active staff, with an existing dependency if any; the new row starts not started and without a dependency, with one job for the assignee |
| TaskEffects.UpdateIsAccepted | src/modules/task/task.service.ts:137-171 | accepted exactly when a new assignee is a member, a new department belongs to the organization, and a new dependency is another task of the organization from which no list of dependencies leads back |
| TaskEffects.UpdateEffect | src/modules/task/task.service.ts:173-200 | each given column takes its value, a cleared dependency is gone, all others stand, and one job names both users exactly on a reassignment |
| TaskEffects.StatusIsAccepted | src/modules/task/task.service.ts:224-250 | accepted exactly for members, on their own task if they are plain members, not back from overdue, and neither started nor completed before an existing prerequisite is completed |
| TaskEffects.StatusEffect | src/modules/task/task.service.ts:252-287 | only status and stamp change: late exactly when it was overdue, stamped with the time of completion, unstamped when reopened |
| TaskEffects.RemoveEffect | src/modules/task/task.service.ts:289-318 | accepted exactly for the assigner or a strictly higher role, and only if no task depends on it |
| TaskEffects.SubTaskEffect | src/modules/task/task.service.ts:333-355 | a not started task starts, any other unfinished one stands |
| TaskLifecycle.ClosureStep | src/modules/task/task.service.ts:244-271 | a step leaves every completed task on completed prerequisites if and only if it neither reopens a completed prerequisite of a completed task nor re-points a completed task to an unfinished one |
| TaskLifecycle.RunsKeepDoneClosed | src/modules/task/task.service.ts:244-271 | over every run without such a step completed tasks stay closed under their prerequisites, whatever crons, subtasks and deletions interleave |
| TaskLifecycle.PrerequisitesOfDoneAreDone | src/modules/task/task.service.ts:244-250 | in such runs every task at the end of a chain of dependencies from a completed task is completed |
| TaskLifecycle.ReopeningBreaksClosure | src/modules/task/task.service.ts:263-270 | a run from the empty table reaches a closed state whose next request, a reopening, leaves a completed task on an unfinished prerequisite, so the closure is not an invariant of all runs |
| TaskService.TaskService.Update | src/modules/task/task.service.ts:137-222 | the edit happens only past the membership, department and dependency guards, and a reassignment enqueues both users |
| TaskService.TaskService.HandleOverdueDetection | src/scheduler/performance.task.ts:26-65 | afterwards a task is overdue exactly if it was, or was not started or in progress with a deadline before now; no other column changes; and the new jobs name exactly the owners of the latter, each in their organization |
| TaskService.GroupingMakesJobs | src/scheduler/performance.task.ts:47-59 | the filled organization map yields jobs that cover exactly the owners of the expired tasks |
| TaskService.JobsNameOwners | src/scheduler/performance.task.ts:47-59 | the pairs of organization and user named by the appended jobs are those of the newly overdue tasks |
| TaskEffects.MarkingEffect | src/scheduler/performance.task.ts:32-45 | marking changes exactly the status of not started and in-progress tasks whose deadline lies before now |
| TaskService.AnswersStayReachable | src/modules/task/task.service.ts:34-355 | whatever a method of the service does to a reachable table leaves a reachable one, so the theorems hold of the object after any calls |
| Performance.TallyCountsTheTable | src/modules/performance/performance.service.ts:59-69 | summing and searching the grouped rows, in whatever order they come, gives the counts of the user's tasks |
| Performance.StatusesPartition | src/modules/performance/performance.service.ts:65-69 | the five status groups of a user are disjoint and add up to the user's tasks |
| Performance.ColumnsAreCounts | src/modules/performance/performance.service.ts:65-82 | in a record that agrees with the table each count column is the size of a set of tasks, on time for COMPLETED, late for COMPLETED_LATE, with their sum as completed; without tasks zeros, 50 and Average |
| Performance.ScoreColumns | src/modules/performance/performance.service.ts:84-107 | score and rating are fixed by the count columns of the same record: capped at 100, else an exact fraction |
| Performance.UpsertEffects | src/modules/performance/performance.service.ts:95-108 | a recalculation keeps the calibration columns and a calibration the task columns, a created record has defaults for what is not written, and no other record changes |
| Performance.ScaledScore | src/modules/performance/performance.service.ts:84-88 | the score times the number of tasks is one integer form in the counts |
| Performance.AtLeast | src/modules/performance/performance.service.ts:84-89 | reaching a whole score is an integer inequality between the counts |
| Performance.ScoreRange | src/modules/performance/performance.service.ts:88 | every score of a task table lies in [10, 100], so the lower clamp never acts |
| Performance.RatingBands | src/modules/performance/performance.service.ts:89 | each rating is an integer inequality between the counts, Excellent from forty times the total |
| Performance.ScoreMonotone | src/modules/performance/performance.service.ts:84-88 | at equal totals the score follows the weighted count, through both clamps |
| PerformanceWorker.MarkingNeverRaises | src/scheduler/performance.task.ts:32-45 | marking tasks overdue raises nobody's score |
| PerformanceWorker.CompletingNeverLowers | src/modules/task/task.service.ts:252-271 | completing a task, on time or late, lowers nobody's score |
| PerformanceWorker.GroupByStatus | src/modules/performance/performance.service.ts:59-63 | one row for every status that occurs, with its count, each status once |
| PerformanceWorker.PerformanceWorker.RecalculateForUser | src/modules/performance/performance.service.ts:58-115 | each count column of the record becomes the number of the user's tasks in the table with that status, and a user without tasks shows zeros, 50 and Average |
| PerformanceWorker.PerformanceWorker.Process | src/modules/performance/performance.processor.ts:14-26 | users before the first failure show the fold of their tasks, all other records are untouched, calibration columns survive |
| PerformanceCache.ChangesAreEnqueued | src/modules/performance/performance.service.ts:26-56 | a request that changes the counts of a user enqueues a job for that user, although adding a subtask changes a status silently |
| PerformanceCache.StepKeepsFresh | src/modules/performance/performance.service.ts:26-131 | every step of every actor but a harmful drop keeps, for a user: the record agrees, or a job is queued, or the worker owes a write that will be current |
| PerformanceCache.ReachableIsFreshOrLost | src/modules/performance/performance.processor.ts:14-26 | in every reachable state, jobs dropped or not, exactly one holds for a user: the record agrees or a job is queued or the worker owes a current write, or the record is wrong with no job anywhere |
| PerformanceCache.DrainedMeansAgreed | src/modules/performance/performance.service.ts:26-115 | with the queue empty and the worker idle, the user's record equals the fold of the user's tasks (an absent one standing for the defaults) if and only if a job for the user was queued again after every harmful drop, which holds of every run without drops |
| PerformanceCache.EveryRunConverges | src/modules/performance/performance.processor.ts:14-26 | after any run at all, undisturbed worker steps empty the queue, and end in agreement if and only if a job for the user was queued again after every harmful drop |
| PerformanceCache.DropIsExact | src/modules/performance/performance.processor.ts:20-23 | from any reachable state, if the job in hand is dropped and nothing more happens the record ends in agreement if and only if it was right or another job for the user was queued |
| PerformanceCache.LostStaysLost | src/modules/performance/performance.processor.ts:20-23 | after a harmful drop each step either queues a job for the user, which restores the invariant, or leaves the record wrong |
| PerformanceCache.RequeuedConverges | src/modules/performance/performance.processor.ts:20-23 | a failed job that is handed back, at any point, ends in agreement for all its users |
| PerformanceCache.DroppedJobIsLost | src/modules/performance/performance.processor.ts:20-23 | a run from the empty system in which dropping the failed job leaves the system idle with a wrong record, and handing it back ends in agreement |
| ReviewGeneration.GenerationIsExact | src/modules/review/review.service.ts:217-245 | for any finite supervisor relation the generated pairs are distinct, exactly the due ones, of fitting kinds with self pairs always self reviews, and number one per user plus two per supervised user if and only if there are no loops or two-cycles |
| ReviewGeneration.RequestsAreDue | src/modules/review/review.service.ts:221-236 | a pair is requested if and only if it is a user with themselves, with their supervisor, or the other way round |
| ReviewGeneration.DedupHasNoRepeats | src/modules/review/review.service.ts:238-245 | the filter leaves no pair twice |
| ReviewGeneration.SelfFirst | src/modules/review/review.service.ts:221-245 | under self-supervision it is the self review that survives the filter |
| ReviewGeneration.RequestsFit | src/modules/review/review.service.ts:221-236 | a manager review is by the reviewee's supervisor and an upward review is about the reviewer's |
| ReviewGeneration.DedupSize | src/modules/review/review.service.ts:238-245 | the filter drops something if and only if a pair repeats |
| ReviewGeneration.RepeatsAreLoops | src/modules/review/review.service.ts:221-245 | a pair repeats if and only if the supervisor relation has a loop or a two-cycle |
| ReviewGeneration.InsertedRows | src/modules/review/review.service.ts:246 | the bulk insert adds a blank review for each requested pair and touches no other row |
| ReviewLoops.PushAssignments | src/modules/review/review.service.ts:219-236 | the pushing loop produces the requests of the users in row order |
| ReviewLoops.FilterSeen | src/modules/review/review.service.ts:238-245 | the filter with its set of seen keys keeps exactly the first request of every pair |
| ReviewLoops.Validate | src/modules/review/review.service.ts:436-451 | the nested loops complain exactly unless each rating question of the snapshot is answered with 1, 2, 3, 4 or 5 |
| ReviewLoops.ComputeScore | src/modules/review/review.service.ts:453-460 | the loop and the reduction give the rounded mean of the numbers labelled ratings, or no score when there are none |
| ReviewLoops.CollectScores | src/modules/review/review.service.ts:638-644 | in whatever order rows come, each user's list holds the score of each counted review of that user once |
| ReviewLoops.AverageScores | src/modules/review/review.service.ts:638-652 | the session gets an entry for exactly the users with a counted score in scope, with the rounded mean |
| ReviewScores.SectionsPass | src/modules/review/review.service.ts:436-451 | a submission passes if and only if each question of each section does |
| ReviewSubmission.ValidationMeans | src/modules/review/review.service.ts:436-451 | a submission is valid if and only if for every rating question some response names it and carries the number 1, 2, 3, 4 or 5 |
| ReviewSubmission.QuestionPasses | src/modules/review/review.service.ts:441-447 | a missing or non-numeric answer is told from one outside the five numbers |
| ReviewSubmission.FirstComplaint | src/modules/review/review.service.ts:437-451 | the complaint is about the first question, section by section, that does not pass |
| ReviewSubmission.RatingValuesMeans | src/modules/review/review.service.ts:453-458 | the averaged values are the numbers labelled as ratings, in order |
| ReviewSubmission.ScoreMeans | src/modules/review/review.service.ts:459-460 | the score is their mean rounded half up to hundredths, and missing exactly when there are none |
| ReviewScores.HonestScore | src/modules/review/review.service.ts:436-460 | if every labelled response answers a rating question, an accepted score is in [1, 5] and within 0.005 of the exact mean |
| ReviewScores.LabelsDecideTheScale | src/modules/review/review.service.ts:453-460 | for a set of labelled questions, all accepted submissions score in [1, 5] if and only if each of them is a rating question of the snapshot |
| ReviewScores.FalseLabelEscapes | src/modules/review/review.service.ts:453-460 | any label on another question admits an accepted submission with a score above 5 |
| ReviewInvariants.StepKeeps | src/modules/review/review.service.ts:33-788 | each request of the service, the cron, a department deletion and a recalculation keep the joint invariant of all six tables |
| ReviewInvariants.RemovalDestroysNothing | src/modules/review/review.service.ts:194-198 | the deletion cascade of an accepted cycle removal has nothing to delete or unlink |
| ReviewTheorems.StatusMovesForward | src/modules/review/review.service.ts:200-343 | a cycle's status moves forward one stage at a time, and only a draft can disappear |
| ReviewTheorems.DraftsAreBare | src/modules/review/review.service.ts:64-98 | in every reachable state a draft cycle has no reviews, nominations, sessions or linked records, and every other cycle's snapshot equals its template's current sections |
| ReviewTheorems.DeletionDestroysNothing | src/modules/review/review.service.ts:194-198 | removing a reachable draft changes the cycle table and nothing else |
| ReviewTheorems.ActivationNeverCollides | src/modules/review/review.service.ts:246 | activation never trips the unique constraint on reviews |
| ReviewTheorems.ActivationIsExact | src/modules/review/review.service.ts:200-252 | after an accepted activation a user has a self review if and only if the user is a member, not excluded by the cycle, with an active profile; any other pair has a review if and only if one of the two is such a user and the other the supervisor in the profile |
| ReviewTheorems.ActivationEffect | src/modules/review/review.service.ts:217-246 | the new reviews are pending and blank, of the kind that the supervisor columns say, and every other review stands |
| ReviewTheorems.ActivationIsAccepted | src/modules/review/review.service.ts:200-204 | a reachable draft of the organization is activated exactly when its participants and their supervisors are users |
| ReviewTheorems.ActivatedCycle | src/modules/review/review.service.ts:247-249 | the cycle becomes active with its template's sections, and nothing else changes |
| ReviewTheorems.ApprovedAreThePeerReviews | src/modules/review/review.service.ts:570-589 | in every reachable state the approved nominations of a cycle are slot for slot its peer reviews |
| ReviewTheorems.AtMostThreePeers | src/modules/review/review.service.ts:524-552 | nobody gets more than three peer reviews in a cycle or one by themselves |
| ReviewTheorems.OriginalScoresAreCurrentMeans | src/modules/review/review.service.ts:614-659 | in every reachable state a session has an entry for exactly the users with a submitted score, within the members its department had when it was opened for one, and each original score is the rounded mean of the user's scores as they stand now, whatever departments are deleted since |
| ReviewScope.ClearedDepartmentHidesScope | prisma/migrations/20260807000226_add_review_cycles/migration.sql:175 | a run from the empty tables ends with a session that names no department and leaves out a user with a score |
| ReviewTheorems.OriginalScoreIsAccurate | src/modules/review/review.service.ts:646-652 | with honest labels each original score is in [1, 5] and within 0.01 of the mean of the exact means |
| ReviewTheorems.ClosedMeansFinalized | src/modules/review/review.service.ts:299-328 | a completed cycle has only finalized sessions, and a finalized session has a score and a note for every entry |
| ReviewTheorems.OnlyWhileCalibrating | src/modules/review/review.service.ts:684-758 | adjusting and finalizing succeed only while the cycle is calibrating, though neither checks it |
| ReviewTheorems.FinalizedIsFrozen | src/modules/review/review.service.ts:699-719 | no request changes or deletes a finalized session, but for the department column that the deletion of its department clears |
| ReviewTheorems.CompletionWritesScores | src/modules/review/review.service.ts:308-328 | completion never writes a null score |
| ReviewTheorems.LastWriterWins | src/modules/review/review.service.ts:312-327 | the nested upserts leave each record with the entry of the last session that rates its user, or unchanged |
| ReviewTheorems.CompletionIsLastWriter | src/modules/review/review.service.ts:299-328 | after completion every user of a finalized session has the cycle as last cycle and the calibrated score, never null, of one of its sessions, with the task columns kept, and every other record is unchanged |
| ReviewTheorems.RecordsAreOnTheScale | src/modules/review/dto/adjust-calibration.dto.ts:8-11 | every stored review score is in [1, 5], is set if and only if a last cycle is, and that cycle reached calibration |
| ReviewEffects.OriginalScoreMeans | src/modules/review/review.service.ts:638-652 | an original score is the mean, rounded half up to hundredths, of a list of the scores of exactly the user's submitted and scored reviews in the cycle, each once |
| ReviewEffects.UpdateTemplateEffect | src/modules/review/review.service.ts:64-87 | accepted exactly while no started cycle of the organization uses the template |
| ReviewEffects.RemoveTemplateEffect | src/modules/review/review.service.ts:89-98 | accepted exactly while no cycle of the organization uses the template |
| ReviewEffects.CreateCycleEffect | src/modules/review/review.service.ts:100-118 | a draft with the given columns, for a member, with dates in order and a template of the organization |
| ReviewEffects.UpdateCycleEffect | src/modules/review/review.service.ts:174-192 | given columns of a draft change and all others stand, with dates compared only if both are given |
| ReviewEffects.NominateEffect | src/modules/review/review.service.ts:524-552 | accepted exactly within the limit of three, for other users not nominated yet; exactly these rows are added as pending |
| ReviewEffects.ApproveEffect | src/modules/review/review.service.ts:570-589 | accepted exactly for a pending nomination without a review, which gains a blank peer review |
| ReviewEffects.SubmitEffect | src/modules/review/review.service.ts:424-476 | accepted exactly for the reviewer of an unsubmitted review in an active cycle with valid responses, which are stored with their score |
| ReviewEffects.SweepEffect | src/modules/review/review.service.ts:771-788 | exactly the pending reviews of active cycles whose end lies before now become overdue |
| ReviewEffects.OpenEffect | src/modules/review/review.service.ts:614-659 | the session has an entry, undecided, for exactly the users with a submitted score, in the named department if any |
| ReviewEffects.AdjustIsAccepted | src/modules/review/review.service.ts:684-699 | accepted exactly for the facilitator or an owner, for a user of a session that is not finalized |
| ReviewEffects.AdjustEffect | src/modules/review/review.service.ts:700-704 | exactly the target's calibrated score and note take the given values |
| ReviewEffects.FinalizeIsAccepted | src/modules/review/review.service.ts:707-735 | accepted exactly for the facilitator or an owner, when every entry has a score and a note that is not empty |
| ReviewEffects.FinalizeEffect | src/modules/review/review.service.ts:737-758 | the session is closed and each of its users gets the calibrated score and the cycle; task columns and other records stand |
| ReviewEffects.CompleteIsAccepted | src/modules/review/review.service.ts:299-308 | accepted exactly for a calibrating cycle whose sessions are all finalized |
| ReviewService.AnswersStayReachable | src/modules/review/review.service.ts:33-788 | whatever a method of the service does to reachable tables leaves reachable ones, so the theorems hold of the object after any calls |
| ReviewService.BulkStaysReachable | src/modules/review/review.service.ts:602-612 | a bulk approval, complete or cut short, is a run of single approvals |
| ReviewService.BulkEffect | src/modules/review/review.service.ts:602-612 | exactly the pending nominations of the cycle become approved, each with a blank peer review |
| ReviewService.ReviewService.ActivateCycle | src/modules/review/review.service.ts:200-252 | reviews and snapshot of an activation, or the refusal with every table untouched, for the row order the queries gave |
| ReviewService.ReviewService.SubmitReview | src/modules/review/review.service.ts:424-476 | an accepted submission answers every rating question with 1, 2, 3, 4 or 5, and one refused for a rating leaves some rating question without such an answer |
| ReviewService.ReviewService.CreateNominations | src/modules/review/review.service.ts:524-552 | all nominations of a request or none, within the limit of three |
| ReviewService.ReviewService.BulkApproveNominations | src/modules/review/review.service.ts:602-612 | it succeeds if and only if no pending nomination collides with a review, then leaves none pending and returns how many there were; otherwise it reports the collision and keeps what it had approved |
| ReviewService.ApproveOneMore | src/modules/review/review.service.ts:607-610 | after any set of approvals the next one fails if and only if its review existed before the loop |
| ReviewService.ReviewService.CreateCalibrationSession | src/modules/review/review.service.ts:614-659 | a session with the averaged scores, only while calibrating |
| ReviewService.ReviewService.FinalizeSession | src/modules/review/review.service.ts:707-758 | the missing list is empty if and only if every entry has a score and a note, and only then scores are written and the session is frozen |
| ReviewService.OneMoreWrite | src/modules/review/review.service.ts:738-749 | upserting one more user extends the set of written records by that user, in any order |
| ReviewService.ReviewService.CompleteCycle | src/modules/review/review.service.ts:299-328 | the nested upserts over the finalized sessions in row order, or the refusal with every table untouched |
| ReviewService.ReviewService.MarkOverdueReviews | src/modules/review/review.service.ts:771-788 | cycle by cycle, exactly the lapsed reviews become overdue and their number is returned |
| ReviewService.SweepOne | src/modules/review/review.service.ts:778-786 | one cycle's bulk update adds exactly its lapsed reviews, and their count, to those of the cycles before it |
| SocketRooms.TailIsExact | src/gateway/task.gateway.ts:113-122 | for every socket ever opened, the tail of its connection keeps the protocol invariant if and only if the socket is still connected and every synchronization before it, finished or in flight, heads for the same organization |
| SocketRooms.TailKeepsOneRoom | src/gateway/task.gateway.ts:113-122 | under the same condition, and no other, a connected socket is in exactly one room after the tail and after whichever synchronization then in flight moves it |
| SocketRooms.StepKeeps | src/gateway/task.gateway.ts:57-241 | every step with a safe tail keeps rooms, locks, index and remembered organizations exact |
| SocketRooms.AlwaysOneRoom | src/gateway/task.gateway.ts:210-241 | under any interleaving of one gateway object with safe tails, a connected established socket is in exactly the organization room its data names, a lock is held only while a synchronization of its socket is in flight and, for a connected socket, always then |
| SocketRooms.OneSyncPerSocket | src/gateway/task.gateway.ts:210-241 | within one gateway object a connected socket never has two synchronizations in flight |
| SocketEffects.EstablishEffect | src/gateway/task.gateway.ts:113-122 | the tail stores user, organization and role, adds one room and one index entry, and changes nothing else |
| SocketEffects.CloseEffect | src/gateway/task.gateway.ts:132-139 | exactly the socket, its lock and its index entry go |
| SocketEffects.StartEffect | src/gateway/task.gateway.ts:210-223 | a synchronization goes in flight, with the lock, exactly when the lock is free and the session names another organization |
| SocketEffects.ResumeEffect | src/gateway/task.gateway.ts:224-240 | the lock is released; a membership moves the socket with its role, none closes it, and a failed lookup closes it exactly on a switch |
| SocketRooms.CloseUserIsComplete | src/gateway/task.gateway.ts:161-174 | a logout disconnects every socket established for the user and touches no other |
| SocketRooms.EarlySyncMakesTwoRooms | src/gateway/task.gateway.ts:113-116 | a synchronization to another organization that starts before the tail leaves the socket in two rooms |
| LateTails.LateTailLeavesDeadId | src/gateway/task.gateway.ts:119-122 | a run in which the socket closes before the tail leaves a closed socket in the index |
| LateTails.DeadIdStays | src/gateway/task.gateway.ts:132-139 | a closed socket in the index never comes back and stays there through every event but a logout of its user |
| LateTails.LogoutForgivesLateTail | src/gateway/task.gateway.ts:161-174 | after a logout of the user a tail on a closed socket has left no trace |
| LateTails.CleanStep | src/gateway/task.gateway.ts:57-241 | taking closed sockets out of the index before or after a step makes no difference, and a tail on a closed socket is then no step at all |
| LateTails.LateTailsAreConfined | src/gateway/task.gateway.ts:113-122 | in every run with tails on closed sockets too, sockets, rooms, locks and synchronizations are those of a run without such tails, and a user's index entry holds exactly the user's connected sockets besides closed ones |
| SeveralGateways.RunIsExact | src/gateway/task.gateway.ts:113-116 | over any number of gateway objects and any interleaving, all sockets are in one room each all along a run if and only if every tail finds the socket in no other organization and every move leaves the room it is in |
| SeveralGateways.StepIsExact | src/gateway/task.gateway.ts:113-116 | a step of any object keeps all sockets in one room each if and only if it is current |
| SeveralGateways.MoveIsExact | src/gateway/task.gateway.ts:227-234 | a move keeps its socket in one room if and only if the socket was in none, in the one the move leaves, or in the one it enters |
| SeveralGateways.OneGatewayIsTheProtocol | src/gateway/gateway.module.ts:4-8 | with a single object the cluster is the room protocol, step for step |
| SeveralGateways.OthersForget | src/gateway/task.gateway.ts:132-139 | when one object closes a socket every other drops exactly its lock and its index entry |
| SeveralGateways.TwoLocksMakeTwoRooms | src/modules/performance/performance.module.ts:13 | a run in which two objects hold a lock on one socket at once and the socket ends in two rooms |
| TaskGateway.HeartbeatSettles | src/gateway/task.gateway.ts:176-241 | after a beat a socket remains if and only if its cookie names a session with now no later than its expiry and an active organization that is its own or has its user as a member; then it is alone in that room, with the role there if moved |
| TaskGateway.SecondHeartbeatIsIdle | src/gateway/task.gateway.ts:176-208 | a second beat over unchanged sessions and memberships moves nothing and drops nobody |
| TaskGateway.UndisturbedSync | src/gateway/task.gateway.ts:210-241 | for every answer of its lookup, the two halves of a synchronization with nothing in between have the effect of one step on a connected socket and none on a closed one |
| TaskGateway.TaskGateway.HandleConnection | src/gateway/task.gateway.ts:57-130 | undisturbed, accepted if and only if the cookie names a session with now no later than its expiry and an active organization with the user as a member, and no lookup fails; then user, organization and role are stored, else the socket is gone |
| TaskGateway.TaskGateway.Disconnect | src/gateway/task.gateway.ts:132-139 | the socket leaves the index and the lock set, and an emptied index entry goes |
| TaskGateway.TaskGateway.DisconnectUser | src/gateway/task.gateway.ts:161-174 | the loop over an index entry that its own disconnections edit, closed sockets in it skipped, has the effect of one logout step |
| TaskGateway.TaskGateway.HandleOrgSwitch | src/gateway/task.gateway.ts:141-159 | a switch without an unexpired session, or whose lookup fails, removes the socket; an undisturbed one leaves it in the active organization, with the role there, if and only if it is there already or its user is a member |
| TaskGateway.TaskGateway.BeginSync | src/gateway/task.gateway.ts:210-222 | the lock is taken, and released at once when there is nothing to look up |
| TaskGateway.TaskGateway.EndSync | src/gateway/task.gateway.ts:224-240 | the lock is released whatever the lookup answers, and only a found membership moves the socket |
| TaskGateway.TaskGateway.Heartbeat | src/gateway/task.gateway.ts:176-208 | it does not overlap itself and keeps the invariant; a full undisturbed beat leaves exactly the sockets with an unexpired session whose active organization is theirs or has their user as a member, each in that organization, and no lock |
| AuditCsvRoundTrip.ExportReadsBack | src/modules/audit-log/audit-log.service.ts:59-73 | reading an export gives back the header and every row if and only if no unquoted field contains a quote, comma or line end, whatever names and metadata contain, the empty export included |
| AuditCsvRoundTrip.RowColumns | src/modules/audit-log/audit-log.service.ts:60-70 | which column of a log is printed where, and that only name and present metadata are quoted |
| AuditCsvRoundTrip.RowsInOrder | src/modules/audit-log/audit-log.service.ts:59-73 | the export is the header and one row for each log, in order |
| AuditCsvRoundTrip.PrintMeans | src/modules/audit-log/audit-log.service.ts:61-73 | commas between fields, line ends between rows, quotes around quoted fields with their own quotes doubled |
| AuditCsvRoundTrip.FileReads | src/modules/audit-log/audit-log.service.ts:60-73 | the same for any rows of at least two fields |
| AuditCsvRoundTrip.FieldReads | src/modules/audit-log/audit-log.service.ts:62-69 | a quoted field with any text, or a clean unquoted one, is read back and the reader stops right after it |
| AuditCsvRoundTrip.DirtyFieldLost | src/modules/audit-log/audit-log.service.ts:62-68 | an unquoted field that is not clean never reads back as itself |
| AuditCsvRoundTrip.RecordReads | src/modules/audit-log/audit-log.service.ts:61-70 | a clean record is read back with the rest of the file left |
| DepartmentComparison.GetDepartmentComparison | src/modules/analytics/analytics.service.ts:199-321 | every line of the single-pass, map-based comparison equals its department computed alone by filtering, all zeros without profiles |
| DepartmentComparison.GroupsCountTasks | src/modules/analytics/analytics.service.ts:229-250 | the group sums of a department are its tasks and its finished tasks |
| DepartmentColumns.LineMeans | src/modules/analytics/analytics.service.ts:276-321 | members are counted by profile and zero members mean zeros; the completion rate is the percentage of finished among task rows, rounded half up in whole numbers |
| DepartmentColumns.MembersAreProfiles | src/modules/analytics/analytics.service.ts:207-215 | a department has as many users as profiles that name it |
| DepartmentColumns.TasksAreRows | src/modules/analytics/analytics.service.ts:235-250 | task and finished-task counts are numbers of rows, COMPLETED and COMPLETED_LATE being finished |
| DepartmentColumns.ScoreIsLastRecord | src/modules/analytics/analytics.service.ts:223-226 | the score of a user is that of the last record fetched for the user |
| DepartmentColumns.AverageMeans | src/modules/analytics/analytics.service.ts:288-295 | the average is the mean rounded half up to hundredths, zero without scores |
| DepartmentColumns.ProgressMeans | src/modules/analytics/analytics.service.ts:302-307 | the progress is the percentage of a positive target, rounded half up, else zero |
| DepartmentComparison.TotalsAddUp | src/modules/analytics/analytics.service.ts:235-250 | over distinct departments that cover the rows, the totals accumulated from the groups add up to the fetched tasks that have a department |
| DepartmentComparison.RateIsPercentage | src/modules/analytics/analytics.service.ts:297-300 | each completion rate is in [0, 100] and within half a point of the exact percentage |
| DepartmentComparison.GroupUsers | src/modules/analytics/analytics.service.ts:207-215 | each department's list holds the users of its profiles in row order |
| DepartmentComparison.SumGroups | src/modules/analytics/analytics.service.ts:237-250 | the map entries are the sums over the rows of each department |

## Left out

- Complaints, recognition, departments, users, notifications, snapshots and insights: small guards and plain reads and writes. Of the department service only the effect of a deletion on tasks and sessions is modelled, at any time at all, although the service first asks for a department without staff.
- Deletion of an organization (`src/lib/auth/permissions.ts:21`, by the organization plugin of `src/lib/auth.ts:80`): it cascades to cycles of any status, to sessions and to performance records, but not to tasks. It lies outside "only a draft can disappear" (`StatusMovesForward`), `FinalizedIsFrozen` and the cache theorems.
- Target progress rollup: `src/modules/target` is not part of this model.
- Subtask rows, comments, attachments, audit writes, socket emits, mail, AI drafts and read-only queries: no bearing on the invariants.
- Controllers, guards, interceptors and the database, queue and socket libraries: only their contracts appear (finite maps, unique keys, a first-in-first-out queue, rooms that go with their socket).
- Floating-point rounding error: scores are exact rationals, and only `Math.round` is modelled.
- Races inside one check-then-write request (nomination counts, the overdue query and its update, concurrent dependency edits) and several workers: outside the step granularity above.
- The wording of error messages and the list of missing entries: an error is one of an enumeration, so `FinalizeSession` only tells whether the list is empty.
- Identifier syntax: identifiers are numbers, so empty strings and a colon inside an identifier, which the review key joins with colons, do not occur.
- A cycle's start date: it is compared when given and then never read again by the modelled requests, so it is not stored.
- The user rooms of the gateway: only organization rooms are modelled, because nothing leaves a user room while connected.
- The row limit and the filters of the export, the period filter and the access check of the comparison: they choose the rows that both sides of the theorems start from.
- The reading and rounding of dates and of `JSON.stringify`: their texts are arbitrary strings.
- What a closed socket remembers: its data fields are not kept, so a synchronization of it may take and release its lock where the source would return at once.
- TaskGateway.HeartbeatSettles: speaks of a beat that nothing disturbs; disturbed ones are runs of `SocketRooms`.
- ReviewService.ReviewService.CreateCalibrationSession: computes its scores on a value copy of the tables, since the request reads them and changes only the session table.
