# DockControl, modelled in Dafny

DockControl is a self-hosted platform: an API, an agent on every server, a dashboard. This project models the parts of it
that carry hard guarantees and proves them, for every input and every interleaving. `dafny verify dfyconfig.toml` checks it all.

| file | what it models |
|---|---|
| `Sessions.dfy`, `SessionOutcomes.dfy`, `AuthService.dfy` | refresh-token rotation as a protocol over session rows, one database statement a step; what whole requests do to the rows; the service's methods over a mutable table |
| `ApiClient.dfy` | the dashboard's single-flight refresh, composed with that protocol |
| `Lockout.dfy` | the failed-attempt lockout, a timed automaton |
| `AgentTasks.dfy`, `AgentEffects.dfy`, `AgentQueue.dfy` | the agent task protocol: claims, reports, the stale sweep, `onComplete` chains; what the operations do to the rows; the service's methods and the agent's delivery loop |
| `AgentStaging.dfy` | the staging directories of task chains, on the same machine |
| `Calendar.dfy`, `CronSchedule.dfy`, `CronGrammar.dfy`, `BackupSchedule.dfy` | Gregorian days, the cron parser and its minute-by-minute search, the language it accepts, the backups' closed form |
| `CronBuilder.dfy`, `CronForm.dfy` | the dashboard's printer and parser of simple schedules, and what opening and saving the form does to an expression |
| `CronService.dfy`, `CronEffects.dfy` | the watermark scheduler of cron jobs; what a tick and a run do to jobs and commands |
| `SftpResolve.dfy` | the SFTP server's path resolution against a file system with symbolic links |
| `DeployDirs.dfy` | the application directory across deploys, rollbacks and crashes; the health check |
| `Archive.dfy`, `Backups.dfy` | packing, unpacking under a byte budget, and which file holds which dump |
| `EnvFile.dfy`, `EnvReading.dfy` | the `.env` printer and parser, and lines that nobody printed |
| `ComposePorts.dfy` | port mappings of a compose document |
| `Text.dfy`, `Wrappers.dfy` | splitting, decimal numbers, white space; `Option` and `Result` |

Concurrent code is a state machine: a `State`, an `Event` for each database statement or file-system call, `Step`, `Run` over
any sequence of events, an inductive invariant. Code that updates objects is a class whose methods state their new contents
as a step of that machine and keep its invariant. Loops are loops, proved against the definition of what they compute.

## What the code does that its comments do not say

- The last write of a refresh activates the successor whatever its status. A family revoked in between comes back to life
  (`Sessions.LostRaceLeavesFamilyAlive` is such a race); `Sessions.RevocationHoldsExactlyWhen` gives the exact condition.
- `taskResult` reads a row in one statement and writes it in another. Two reports that both read first both land, and the
  hooks run twice (`AgentTasks.SplitCheckRunsHooksTwice`). The sweep recognises its rows by their error text, which an agent
  may send too (`AgentTasks.ForgedTextRunsHooksTwice`). `AgentTasks.HooksRunOnceExactlyWhen` and
  `AgentTasks.VerdictIsFinalExactlyWhen` say, over all runs, when the two guarantees hold; `AgentTasks.ProtocolHolds` gives a
  condition a caller can see to: no report of a task is read, and no sweep closes it, while another is in flight.
- The upload endpoint does not look at the status of the row. An upload after the hooks are done stages a directory that
  stays until some task whose payload names it cleans up, for ever when there is none
  (`AgentStaging.LateUploadIsNeverRemoved`), and so does one of a task whose chain goes on with a task that does not read
  it; `AgentStaging.GoneExactlyWhen` gives the exact condition.
- Moving an application between servers exports its volumes with a task that has no chain, waits for it to be COMPLETED, and
  then has the target import from the export's directory, or reads it itself
  (`apps/api/src/modules/applications/applications.service.ts:982-1018`). But the export's own hooks remove that directory as
  soon as it is COMPLETED: the volumes arrive if and only if they are read before the hooks get there
  (`AgentStaging.MoveWorksExactlyWhen`, `AgentStaging.UnchainedExportIsLost`; `AgentStaging.MovedVolumesAreGone` is such a run).
- `lastRunAt` of a cron job may fall, when a run is recorded between a tick's reading of the rows and its write
  (`CronService.WatermarkFallsExactlyWhen`, `CronService.FallNeedsARecord`); fired occurrences stay below it all the same.
- A git deploy creates the directory before it looks for something to move aside, so a first deploy has a snapshot too, an
  empty one, and is health-checked. A crash from the first rename to just before the rename back loses the previous tree at
  the next failing deploy (`DeployDirs.SurvivesCrashExactlyWhen`).
- A root of the SFTP server that links to one of its own ancestors refuses every path. The check reads a root in two ways,
  as text and through its links; `SftpResolve.ActsUnderRootExactlyWhen` says for which roots accepted paths stay inside.
  Those the API sends, `/opt/dockcontrol/apps/<slug>` (`apps/api/src/modules/sftp/sftp.service.ts:366-372`), are among them,
  as all without `..` are; `SftpResolve.DotDotRootEscapes` is a root the system does not send.
- Exactly 2 GiB of backup restores unless its last file is empty: the budget check comes before the file is looked at.
- A single quote character as an `.env` value reads back as the empty string, being both ends of itself. A variable called
  `__proto__` is a valid key and is printed, but the plain object it is read into does not store it (`EnvFile.ProtoIsLost`).
- The dashboard's simple form shows an expression that writes Sunday as 7, or a day of the month after the 28th, and saving it
  unchanged moves the job to Saturday or the 28th (`CronForm.FormKeepsTheScheduleExactlyWhen`).
- A range of host ports that reaches over a reserved one is kept: `Number()` reads it as NaN
  (`ComposePorts.FilterAgreesExactlyWhen`).

## Model

| member | source | states |
|---|---|---|
| Sessions.OneHolderPerFamily | apps/api/src/modules/auth/auth.service.ts:576-629 | in every reachable state a family has at most one ACTIVE session, and one holder when requests between compare-and-set and activation are counted |
| Sessions.ExchangedAtMostOnce | apps/api/src/modules/auth/auth.service.ts:583-631 | over all interleavings one session's token is exchanged by at most one request |
| Sessions.ExchangeIsRecorded | apps/api/src/modules/auth/auth.service.ts:626-631 | an exchange stays on record, so the count covers the whole run |
| Sessions.RotationLinksFormOnePath | apps/api/src/modules/auth/auth.service.ts:609-612 | the replacedById links of a family are the edges of one simple path from its login session |
| Sessions.ChainsOnlyGrow | apps/api/src/modules/auth/auth.service.ts:609-612 | a family's history is only ever extended at its end |
| Sessions.RevocationHoldsExactlyWhen | apps/api/src/modules/auth/auth.service.ts:710-715 | after revokeFamily a family can become ACTIVE again if and only if a request stands between its compare-and-set and its activation |
| Sessions.DeadForever | apps/api/src/modules/auth/auth.service.ts:710-715 | without such a request no later state has an ACTIVE row in the family |
| Sessions.DeadFamilyNeverExchanges | apps/api/src/modules/auth/auth.service.ts:561-565 | and no later refresh of any of its tokens is answered with a pair |
| Sessions.LostRaceLeavesFamilyAlive | apps/api/src/modules/auth/auth.service.ts:614-629 | a race of two refreshes after which the loser has revoked the family and the winner can still activate |
| Sessions.FindsTheOnlyRow | apps/api/src/modules/auth/auth.service.ts:545-549 | the look-up by hash finds every row that stores the token's hash, at most one |
| Sessions.LoserIsNeverFound | apps/api/src/modules/auth/auth.service.ts:583-599 | in every reachable state no token whatever finds a successor whose request has not won its compare-and-set |
| Sessions.StepKeeps | apps/api/src/modules/auth/auth.service.ts:530-715 | every statement of refresh, logout, session revocation and login keeps the invariant |
| SessionOutcomes.ReplayBurnsItsFamily | apps/api/src/modules/auth/auth.service.ts:545-574 | in any reachable state and among any other requests, a refresh whose token is of a session that is not ACTIVE, or is somebody else's, or whose account is suspended, leaves every session of the family REVOKED, changes no other row and is refused |
| SessionOutcomes.UnknownOrExpiredLeavesNoTrace | apps/api/src/modules/auth/auth.service.ts:545-569 | an unknown token, or an expired one of an ACTIVE session, is refused and no row changes |
| SessionOutcomes.TrustedRefreshRotates | apps/api/src/modules/auth/auth.service.ts:583-631 | an undisturbed trusted refresh leaves the presented session ROTATED and linked to an ACTIVE successor of the same family and user that the new token finds, changes no other row, and makes the old token a replay |
| SessionOutcomes.LostRaceBurnsItsFamily | apps/api/src/modules/auth/auth.service.ts:609-618 | a request that loses the compare-and-set drops its successor and revokes the whole family, whatever others do in between |
| SessionOutcomes.LogoutBurnsItsFamily | apps/api/src/modules/auth/auth.service.ts:701-715 | logout with a known token revokes its family and nothing else; with an unknown one it does nothing |
| SessionOutcomes.RevokeSessionTouchesItsOwn | apps/api/src/modules/auth/auth.service.ts:660-685 | revoking a session of somebody else does nothing; revoking the current one revokes every other of the user; any other is revoked alone |
| SessionOutcomes.AccountWideRevocation | apps/api/src/modules/auth/auth.service.ts:687-697 | revoking the other sessions touches the user's rows but the kept one; an administrator's reset deletes the user's rows and no other |
| SessionOutcomes.LoginOpensASession | apps/api/src/modules/auth/auth.service.ts:1242-1264 | a login creates one ACTIVE session in a family of its own, changes no other row, and once signed its token finds it |
| AuthService.SessionTable.CreateLoginSession | apps/api/src/modules/auth/auth.service.ts:1242-1257 | the session of a new family, ACTIVE at once under a placeholder hash |
| AuthService.SessionTable.WriteLoginHash | apps/api/src/modules/auth/auth.service.ts:1258-1264 | the hash of the signed token replaces the placeholder |
| AuthService.SessionTable.FindSession | apps/api/src/modules/auth/auth.service.ts:544-574 | the look-up and its refusals; says when the replay branch is taken, and that exactly the distrusted requests go on to revoke the family of the row they found |
| AuthService.SessionTable.CreateSuccessor | apps/api/src/modules/auth/auth.service.ts:588-599 | a PENDING row of the same family with a fresh id |
| AuthService.SessionTable.RotateParent | apps/api/src/modules/auth/auth.service.ts:609-614 | the compare-and-set ACTIVE to ROTATED with its link, won or lost |
| AuthService.SessionTable.ActivateSuccessor | apps/api/src/modules/auth/auth.service.ts:626-629 | the unconditional activation with the real hash |
| AuthService.SessionTable.DeleteSuccessor | apps/api/src/modules/auth/auth.service.ts:614-618 | the loser deletes its successor and goes on to revoke the family |
| AuthService.SessionTable.RevokeFamily | apps/api/src/modules/auth/auth.service.ts:710-715 | every row of the family is REVOKED |
| AuthService.SessionTable.RevokeOtherSessions | apps/api/src/modules/auth/auth.service.ts:687-697 | every session of the user but the kept one is REVOKED |
| ApiClient.SingleFlightNeverReplays | apps/dashboard/src/lib/api.ts:125-167 | however many callers get a 401 at once, and whatever other devices of the account and other accounts do: unless the browser's session is revoked or deleted its refresh never reaches the replay branch nor loses the compare-and-set, and its cookie stays the family's one usable token |
| ApiClient.ReplaysExactlyWhenRevoked | apps/dashboard/src/lib/api.ts:125-167 | the refresh of a browser is about to take the replay branch or lose the compare-and-set if and only if the session it presents was revoked or deleted since its activation and the refresh is at that statement |
| ApiClient.WaitersAgree | apps/dashboard/src/lib/api.ts:155-166 | everyone waiting on one refresh gets the same outcome and nobody is left waiting |
| ApiClient.LoginStartsTheWorld | apps/dashboard/src/lib/api.ts:86-92 | a login in any reachable state, once its cookie is delivered, establishes the invariant of the three above |
| ApiClient.ActKeeps | apps/dashboard/src/lib/api.ts:125-211 | every action of callers, server, other devices and other accounts, suspension and revocation included, keeps it or loses the session |
| ApiClient.Browser.TryRefresh | apps/dashboard/src/lib/api.ts:125-128 | join the promise in flight or start one |
| ApiClient.Browser.Finally | apps/dashboard/src/lib/api.ts:146-165 | settling answers exactly the waiting callers and clears the field |
| Lockout.AtMostFivePerWindow | apps/api/src/modules/auth/auth.service.ts:878-911 | n successive half-open windows of fifteen minutes without a reset hold at most 5n counted failures, expired locks included |
| Lockout.CounterStaysInRange | apps/api/src/modules/auth/auth.service.ts:878-911 | the counter stays in 0..5 and is 5 exactly when a lock is set |
| Lockout.LockLastsExactly | apps/api/src/modules/auth/auth.service.ts:850-858 | attempts are refused before the end of the lock, and the first failure after it counts as one |
| Lockout.SixSpanALock | apps/api/src/modules/auth/auth.service.ts:899-910 | six failures in a row span at least one full lock |
| Lockout.FifthFailureLocks | apps/api/src/modules/auth/auth.service.ts:878-911 | five wrong attempts after a reset or the start: four leave no lock, the fifth locks for fifteen minutes from its count |
| Lockout.AttemptIsRecorded | apps/api/src/modules/auth/auth.service.ts:850-911 | a refused or uncounted attempt leaves no trace; any other wrong one is counted, any other right one clears counter and lock |
| Lockout.RecordIsExact | apps/api/src/modules/auth/auth.service.ts:850-911 | and nothing else is on record |
| Lockout.UserRow.AssertNotLocked | apps/api/src/modules/auth/auth.service.ts:850-858 | refuses while frozen, else tells whether an expired lock was seen |
| Lockout.UserRow.BumpFailedAttempt | apps/api/src/modules/auth/auth.service.ts:878-911 | the two update statements |
| Lockout.UserRow.ResetFailedAttempts | apps/api/src/modules/auth/auth.service.ts:861-866 | counter and lock are cleared |
| Lockout.UserRow.Try | apps/api/src/modules/auth/auth.service.ts:455-515 | one attempt is one step of the automaton, refused while frozen or when it is not right |
| Lockout.UserRow.TryAll | apps/api/src/modules/auth/auth.service.ts:455-515 | after attempts one after another the row is what a run of the automaton says, so the bounds above are bounds on it |
| AgentTasks.HandedOutAtMostOnce | apps/api/src/modules/agent/agent.service.ts:402-419 | whatever reports and sweeps do, no task is handed out twice |
| AgentTasks.VerdictIsFinalExactlyWhen | apps/api/src/modules/agent/agent.service.ts:584-629 | over any run a terminal row keeps its status and error if and only if no report that read the row while it was open is written after something else closed it with a different verdict: sweeps, retries and one-step reports never change it |
| AgentTasks.InFlightExactlyWhenRead | apps/api/src/modules/agent/agent.service.ts:584-594 | the reports between check and write are exactly those whose read found the row open and whose write is still to come |
| AgentTasks.HooksRunOnceExactlyWhen | apps/api/src/modules/agent/agent.service.ts:144-209 | over any run from the start, split reports and forged texts included, termination hooks run at most once per task if and only if every report that writes and every row a sweep re-reads meets a row whose hooks are not owed yet |
| AgentTasks.RunStaysSound | apps/api/src/modules/agent/agent.service.ts:144-737 | as long as the hooks run once, rows, hook runs and chains agree, however reports are split and whatever they say |
| AgentTasks.UnforgedRereadsAreOwn | apps/api/src/modules/agent/agent.service.ts:180-187 | that condition holds when no agent reports the sweep's own error text |
| AgentTasks.UndisturbedWritesLandOpen | apps/api/src/modules/agent/agent.service.ts:584-629 | a split report lands on an open row when no other report of the task is read and no sweep closes it in between |
| AgentTasks.OneStepReportsAreUndisturbed | apps/api/src/modules/agent/agent.service.ts:584-629 | runs whose reports check and write in one step meet that condition |
| AgentTasks.ProtocolHolds | apps/api/src/modules/agent/agent.service.ts:144-651 | any interleaving of polls, undisturbed reports split or not, hooks and non-overlapping sweeps keeps the invariant, runs no hook twice and leaves every terminal row as it is |
| AgentTasks.OneStepProtocolHolds | apps/api/src/modules/agent/agent.service.ts:144-651 | with check-and-write as one step and no forged text all of that holds of every run |
| AgentTasks.RetryChangesNothing | apps/agent/internal/poller/poller.go:2138-2173 | a report sent again changes nothing, whatever it says |
| AgentTasks.SplitCheckRunsHooksTwice | apps/api/src/modules/agent/agent.service.ts:584-629 | two reports that read before either writes flip the verdict and run the hooks twice |
| AgentTasks.ForgedTextRunsHooksTwice | apps/api/src/modules/agent/agent.service.ts:155-187 | a FAILED report with the sweep's text between its selection and update runs the hooks twice |
| AgentTasks.ChainFollowsPlan | apps/api/src/modules/agent/agent.service.ts:673-713 | what a chain has enqueued is a prefix of its plan in order, every task but the last has COMPLETED, the nested entries bound its length, and a chain that ends on success has enqueued the whole plan |
| AgentTasks.EndedChainNeverResumes | apps/api/src/modules/agent/agent.service.ts:698-713 | a chain dropped by a failure, a malformed entry or an enqueue error stays as it is |
| AgentTasks.Plan | apps/api/src/modules/agent/agent.service.ts:673-695 | what a chain enqueues when all goes well: never more than the entries of the nested payload |
| AgentTasks.StepKeeps | apps/api/src/modules/agent/agent.service.ts:144-737 | every statement keeps the protocol's invariant, provided its write lands on an open row and its re-read sees its own rows |
| AgentEffects.SweepClosesExactlyTheOld | apps/api/src/modules/agent/agent.service.ts:144-174 | over any run a sweep's update closes an open task if and only if the task was enqueued more than 1800000 ms before that sweep's selection; it is FAILED with the sweep's text and the others stay |
| AgentEffects.SweepHasSelection | apps/api/src/modules/agent/agent.service.ts:145-164 | every update has its selection and every row its enqueuing, so the above is about every sweep and task |
| AgentEffects.SweepCanSelect | apps/api/src/modules/agent/agent.service.ts:145-154 | the selection has an answer in every state |
| AgentEffects.PollServesOldestFirst | apps/api/src/modules/agent/agent.service.ts:402-419 | a poll hands out at most ten QUEUED tasks of its server, once each, and leaves one behind only when it hands out ten that are no younger |
| AgentEffects.PollCanServe | apps/api/src/modules/agent/agent.service.ts:402-419 | it has an answer in every state, not empty while tasks wait |
| AgentEffects.ReportChangesItsRow | apps/api/src/modules/agent/agent.service.ts:571-640 | a report is accepted if and only if the task exists, is the server's and is open; then its row takes verdict and error and its hooks are owed, and nothing else changes |
| AgentEffects.SplitReportLands | apps/api/src/modules/agent/agent.service.ts:594-640 | the write of a split report puts its verdict on the row whatever the row says by then, and owes the hooks |
| AgentEffects.HooksEnqueueTheNext | apps/api/src/modules/agent/agent.service.ts:673-713 | the hooks of a COMPLETED task enqueue exactly the next entry, with its server, kind, source and what is left of the list; all others enqueue nothing |
| AgentEffects.EntriesRunInOrder | apps/api/src/modules/agent/agent.service.ts:673-695 | the entries of an onComplete list run in order up to a malformed one, and what the earlier ones nest is never run |
| AgentEffects.LastEntryGoesOn | apps/api/src/modules/agent/agent.service.ts:673-695 | after the last entry the chain goes on with the list nested in it |
| AgentQueue.Queue.EnqueueTask | apps/api/src/modules/agent/agent.service.ts:296-300 | a QUEUED row with a fresh id |
| AgentQueue.Queue.Poll | apps/api/src/modules/agent/agent.service.ts:402-419 | the claimed rows become RUNNING; none was handed out before |
| AgentQueue.Queue.TaskResult | apps/api/src/modules/agent/agent.service.ts:571-629 | which reports are accepted, and that a repeated one changes nothing |
| AgentQueue.Queue.UpdateStale | apps/api/src/modules/agent/agent.service.ts:164-174 | exactly the open rows of the selection become FAILED |
| AgentQueue.Queue.RereadStale | apps/api/src/modules/agent/agent.service.ts:175-209 | exactly the rows that look swept get their hooks, whoever closed them |
| AgentQueue.Queue.ChainNext | apps/api/src/modules/agent/agent.service.ts:673-713 | the next entry is enqueued with its payload, or the chain ends and why |
| AgentQueue.Queue.CleanInput | apps/api/src/modules/agent/agent.service.ts:731-733 | the consumed input directory is removed |
| AgentQueue.Queue.CleanOutput | apps/api/src/modules/agent/agent.service.ts:734-736 | the output directory is removed unless a successor was enqueued |
| AgentQueue.ReportResult | apps/agent/internal/poller/poller.go:2119-2176 | posts until an answer settles the report, three times at most, and retries exactly on no answer, 408, 409, 425, 429 and 5xx |
| AgentStaging.StagedExactlyWhen | apps/api/src/modules/agent/agent.service.ts:726-790 | for a directory that no payload names, in any run in which the hooks run once and whenever uploads come: it exists if and only if an upload came after its clean-up, or it was filled and its consumer (the uploader while there is none) has not cleaned it up, or the chain went on with a task that does not read it |
| AgentStaging.GoneExactlyWhen | apps/api/src/modules/agent/agent.service.ts:726-790 | for such a directory: once the hooks of the chain are done it is gone if and only if no upload came after the clean-up and the next task, if any, reads what was staged |
| AgentStaging.SourceIsPredecessor | apps/api/src/modules/agent/agent.service.ts:686-692 | the only reader of a directory that no payload names is the task its chain enqueued next |
| AgentStaging.LateUploadIsNeverRemoved | apps/api/src/modules/agent/agent.service.ts:756-790 | an upload after the hooks are done stages a directory that is there in every later state, as long as no payload names it |
| AgentStaging.UnfitUploadIsNeverRemoved | apps/api/src/modules/agent/agent.service.ts:726-736 | and so is one staged by a task whose chain went on with a task that does not read it |
| AgentStaging.UnneededIsNeverRemoved | apps/api/src/modules/agent/agent.service.ts:726-736 | a staged directory that no payload names and that outlives its need is never removed by any hook, sweep or report |
| AgentStaging.WellStagedExactlyWhileNeeded | apps/api/src/modules/agent/agent.service.ts:726-736 | uploaded while its task is open, chained to its consumer or to nothing and named by nobody, a directory exists exactly while it is needed, so as long as the consumer is live, and is gone when the hooks are done |
| AgentStaging.PresentExactlyWhen | apps/api/src/modules/agent/agent.service.ts:726-790 | any directory in any run whatever, hooks that run twice and named directories included: it is there if and only if no clean-up of any hook came after some upload |
| AgentStaging.ReaderFindsExactlyWhen | apps/api/src/modules/applications/applications.service.ts:982-998 | a task that names a directory and has not cleaned it up finds it if and only if some upload came after which neither the uploader's hooks nor those of another reader removed it |
| AgentStaging.UnchainedExportIsLost | apps/api/src/modules/applications/applications.service.ts:1003-1018 | in any run whatever, what a task uploaded while open is gone once its hooks are done without a chained successor, for tasks that name it and for the service that reads it itself |
| AgentStaging.MoveWorksExactlyWhen | apps/api/src/modules/applications/applications.service.ts:982-998 | the import of a move finds the volumes, other readers aside, if and only if the export's own hooks have not finished |
| AgentStaging.MovedVolumesAreGone | apps/api/src/modules/applications/applications.service.ts:982-998 | a run from the start in which they have, and the open import finds nothing |
| Calendar.CivilDateOfDay | apps/api/src/modules/cron/cron-schedule.util.ts:124-130 | the civil date of a day number is the valid date with that number, for every date |
| Calendar.MonthsFillTheYear | apps/api/src/modules/cron/cron-schedule.util.ts:124-130 | the months partition the year |
| Calendar.MonthsAlternate | apps/api/src/modules/cron/cron-schedule.util.ts:124-130 | the lengths of the months |
| Calendar.KnownWeekdays | apps/api/src/modules/cron/cron-schedule.util.ts:124-130 | two weekdays that are known, which fix all of them |
| CronSchedule.ParseField | apps/api/src/modules/cron/cron-schedule.util.ts:39-76 | accepts exactly the well-formed fields and returns exactly the union of the progressions their parts denote |
| CronSchedule.AddProgression | apps/api/src/modules/cron/cron-schedule.util.ts:73 | the loop adds exactly the progression |
| CronSchedule.ParseCron | apps/api/src/modules/cron/cron-schedule.util.ts:89-116 | accepts exactly the five-field expressions with well-formed fields and reads each of them, Sunday as 0 |
| CronSchedule.ParseIsValid | apps/api/src/modules/cron/cron-schedule.util.ts:89-116 | parsed fields are non-empty and within their bounds |
| CronSchedule.ParseIsUnique | apps/api/src/modules/cron/cron-schedule.util.ts:89-116 | an expression has one reading |
| CronGrammar.FieldStandsFor | apps/api/src/modules/cron/cron-schedule.util.ts:39-76 | for all numbers, ranges, steps and lists: a comma list is accepted if and only if every part fits the field by itself, and stands for exactly the union of first, first + step, ... up to last of its parts |
| CronGrammar.AcceptedIsList | apps/api/src/modules/cron/cron-schedule.util.ts:39-76 | every text that is accepted is such a list |
| CronGrammar.RangeField | apps/api/src/modules/cron/cron-schedule.util.ts:66-71 | "a-b" is accepted if and only if min <= a <= b <= max, and stands for a up to b |
| CronGrammar.SteppedRangeField | apps/api/src/modules/cron/cron-schedule.util.ts:45-73 | "a-b/s" likewise, every s from a |
| CronGrammar.SteppedNumberField | apps/api/src/modules/cron/cron-schedule.util.ts:62-73 | "a/s" runs from a up to the end of the field |
| CronGrammar.FiresExactlyWhen | apps/api/src/modules/cron/cron-schedule.util.ts:89-138 | an expression fires at a minute if and only if minute, hour and month fields hold and either day field that is not "*" does, or both are "*" |
| CronSchedule.SearchBack | apps/api/src/modules/cron/cron-schedule.util.ts:154-161 | the greatest matching minute not after now within the look-back, or none |
| CronSchedule.SearchAhead | apps/api/src/modules/cron/cron-schedule.util.ts:173-181 | the least matching minute after now within the look-ahead, or none |
| CronSchedule.PreviousOccurrence | apps/api/src/modules/cron/cron-schedule.util.ts:150-162 | none for an invalid expression, else the answer of the search |
| CronSchedule.NextOccurrence | apps/api/src/modules/cron/cron-schedule.util.ts:169-182 | none for an invalid expression, else the answer of the search |
| CronSchedule.PreviousIsUnique | apps/api/src/modules/cron/cron-schedule.util.ts:150-162 | at most one minute is the previous occurrence |
| CronSchedule.LookBackSuffices | apps/api/src/modules/cron/cron-schedule.util.ts:156-160 | an expression that fires every year matches in every window of 370 days, leap years included |
| CronSchedule.PreviousNeverNullExactlyWhen | apps/api/src/modules/cron/cron-schedule.util.ts:124-162 | previousOccurrence is non-null at every time if and only if the weekday is restricted or some allowed date exists every year |
| CronSchedule.NextNeverNullExactlyWhen | apps/api/src/modules/cron/cron-schedule.util.ts:169-182 | the same for nextOccurrence |
| BackupSchedule.PreviousOccurrence | apps/api/src/modules/backups/backup-schedule.util.ts:33-72 | answers exactly the supported texts, with the minute the cron search finds for every now |
| BackupSchedule.Hourly | apps/api/src/modules/backups/backup-schedule.util.ts:57-63 | the hourly closed form agrees with the search |
| BackupSchedule.Daily | apps/api/src/modules/backups/backup-schedule.util.ts:67-71 | the daily closed form agrees with the search |
| BackupSchedule.Weekly | apps/api/src/modules/backups/backup-schedule.util.ts:45-50 | back to Sunday agrees with the search |
| CronBuilder.ReadsBackWhatItBuilt | apps/dashboard/src/lib/cron-builder.ts:64-96 | parseToSimple of buildCron is the schedule with the fields its frequency uses clamped and the rest at their defaults |
| CronBuilder.BuiltIsValidCron | apps/dashboard/src/lib/cron-builder.ts:37-56 | every built expression is accepted by the parser |
| CronBuilder.BuiltFiresAsIntended | apps/dashboard/src/lib/cron-builder.ts:37-52 | and fires exactly at the minutes the form describes |
| CronBuilder.MonthlyFiresOncePerMonth | apps/dashboard/src/lib/cron-builder.ts:49-50 | a monthly schedule fires exactly once in every calendar month |
| CronBuilder.SimpleSchedulesNeverStarve | apps/dashboard/src/lib/cron-builder.ts:37-52 | for every simple schedule the cron search always finds an occurrence |
| CronForm.FormKeepsTheScheduleExactlyWhen | apps/dashboard/src/lib/cron-builder.ts:64-96 | opening the form on any valid expression it can show and saving it unchanged keeps exactly the firings if and only if Sunday is not written as 7 and no day of the month is after the 28th |
| CronForm.SundayMayMove | apps/dashboard/src/lib/cron-builder.ts:64-96 | an accepted expression for which it does not |
| CronForm.FormShowsExactlyWhen | apps/dashboard/src/lib/cron-builder.ts:64-96 | the five patterns of expressions the form can show |
| CronService.FiredOccurrencesIncrease | apps/api/src/modules/cron/cron.service.ts:125-156 | over any run the occurrences fired for a job strictly increase, are later than its creation and never above its watermark |
| CronService.NeverOverlapsItself | apps/api/src/modules/cron/cron.service.ts:160-193 | no two executions of one job are under way at once |
| CronEffects.EveryEnabledJobIsRead | apps/api/src/modules/cron/cron.service.ts:126 | a tick reads every enabled job, once and with its row |
| CronEffects.TicksBeginAndEnd | apps/api/src/modules/cron/cron.service.ts:120-127 | a tick begins with the time, unless one is under way, and ends with its list |
| CronEffects.DueJobRuns | apps/api/src/modules/cron/cron.service.ts:127-150 | a job read as enabled, not running and due above its watermark: whatever else happens between the statements, the occurrence becomes its watermark and goes on record, and then an execution starts at the clock unless one has been started by hand |
| CronEffects.UndisturbedTurn | apps/api/src/modules/cron/cron.service.ts:127-150 | undisturbed, in any reachable state, it ends its turn with the occurrence fired, the watermark there and the run under way |
| CronEffects.OthersArePassedOver | apps/api/src/modules/cron/cron.service.ts:129-133 | a job that is running, has no occurrence or has honoured it is passed over |
| CronEffects.RunByHandStarts | apps/api/src/modules/cron/cron.service.ts:160-163 | a run by hand starts unless the job is running |
| CronEffects.RunIsRecordedAndEnds | apps/api/src/modules/cron/cron.service.ts:160-203 | a run leaves the time of its start on its row and, finished, frees its job |
| CronService.RecordOnlyGrows | apps/api/src/modules/cron/cron.service.ts:135-140 | fired occurrences stay on record |
| CronService.WatermarkFallsExactlyWhen | apps/api/src/modules/cron/cron.service.ts:135-203 | in every reachable state a step lowers lastRunAt if and only if it is a tick's write of an occurrence below it; recording a run never does |
| CronService.FallNeedsARecord | apps/api/src/modules/cron/cron.service.ts:126-140 | and then a run of the job was recorded between that tick's reading of the rows and the write |
| CronService.WatermarkMayFall | apps/api/src/modules/cron/cron.service.ts:126-140 | a run from the start in which a tick puts an older occurrence over a recorded manual run |
| CronService.StepKeeps | apps/api/src/modules/cron/cron.service.ts:125-203 | every step of ticks, executions and edits keeps the scheduler's invariant |
| CronService.Scheduler.NextJob | apps/api/src/modules/cron/cron.service.ts:127-133 | one turn of the loop up to its first await |
| CronService.Scheduler.WriteWatermark | apps/api/src/modules/cron/cron.service.ts:135-140 | the occurrence is honoured before the run; nothing happens when the row is gone |
| CronService.Scheduler.Execute | apps/api/src/modules/cron/cron.service.ts:160-163 | refuses a running job, else marks it |
| CronService.Scheduler.RecordRun | apps/api/src/modules/cron/cron.service.ts:197-202 | lastRunAt becomes the start of the run |
| CronService.Scheduler.Finish | apps/api/src/modules/cron/cron.service.ts:190-192 | the job is no longer running |
| SftpResolve.ResolvedPathStaysInside | apps/agent/internal/sftpserver/sftpserver.go:482-572 | for exactly the roots of SftpResolve.ActsUnderRootExactlyWhen, a system call on an accepted path, all links dereferenced and missing tails allowed, fails or works on the resolved root plus the virtual path, inside the root |
| SftpResolve.ActsUnderRootExactlyWhen | apps/agent/internal/sftpserver/sftpserver.go:482-572 | for any root, links and dot-dot included: every accepted path below it acts on the resolved root plus the virtual path if and only if its cleaned text, where it leads to anything that can hold files, leads where the root leads, or every path is refused |
| SftpResolve.AcceptedExactlyWhenNoLinkOnWalk | apps/agent/internal/sftpserver/sftpserver.go:533-572 | for any root, a path is accepted if and only if the root resolves and no link lies on the walk the two texts select |
| SftpResolve.PlainRootAcceptsExactlyWhen | apps/agent/internal/sftpserver/sftpserver.go:533-572 | for a root without dot-dot: if and only if no link lies below the resolved root and the root is not a link to its own ancestor |
| SftpResolve.PlainRootIsSound | apps/agent/internal/sftpserver/sftpserver.go:482-509 | every root without dot-dot meets the condition |
| SftpResolve.PlainRootCleansInPlace | apps/agent/internal/sftpserver/sftpserver.go:495-498 | a root without dot-dot leads to the same place before and after cleaning |
| SftpResolve.NeverLexicallyDenied | apps/agent/internal/sftpserver/sftpserver.go:497-500 | the lexical check never refuses a cleaned path |
| SftpResolve.SegmentsAreProper | apps/agent/internal/sftpserver/sftpserver.go:552-558 | the walk never meets an empty, dot or dot-dot segment |
| SftpResolve.SeenIsAll | apps/agent/internal/sftpserver/sftpserver.go:560-569 | what Lstat shows on the walk is all the links there are |
| SftpResolve.DotDotRootEscapes | apps/agent/internal/sftpserver/sftpserver.go:495-549 | a file system and a root written with dot-dot, not one the API sends, that fail the condition: an accepted path lies outside |
| SftpResolve.CheckRealContained | apps/agent/internal/sftpserver/sftpserver.go:533-572 | true exactly when the root resolves and the walk sees no link |
| SftpResolve.WalkRefusingLinks | apps/agent/internal/sftpserver/sftpserver.go:551-571 | the loop over the components |
| SftpResolve.Resolve | apps/agent/internal/sftpserver/sftpserver.go:482-509 | which virtual paths are denied, unknown or mapped, and to what: the place their text leads to where no link is met, below the root it names |
| SftpResolve.VirtualPathMeans | apps/agent/internal/sftpserver/sftpserver.go:482-496 | cleaning a virtual path agrees with the kernel: for every text it is the one place where the text leads in file systems without links |
| SftpResolve.NamesMeanThemselves | apps/agent/internal/sftpserver/sftpserver.go:482-496 | the text of proper names is read as those names |
| DeployDirs.LatestDeployIsInPlace | apps/agent/internal/poller/poller.go:571-773 | over any sequence of completed deploys the system lets through, dir holds the tree of the latest successful one and no .prev remains after a git deploy |
| DeployDirs.PreviousTreeIsIntact | apps/agent/internal/poller/poller.go:583-591 | once snapshotted, the previous tree is whole in dir or dir.prev at every moment until the new version passes |
| DeployDirs.IntactExactlyWhenMovedAside | apps/agent/internal/poller/poller.go:583-591 | that holds if and only if the first rename is let through |
| DeployDirs.SurvivesCrashExactlyWhen | apps/agent/internal/poller/poller.go:571-803 | a crash at moment k of a deploy that snapshotted, then a failing redeploy: the old tree survives if and only if k lies before the first rename or at the rename back, or the deploy had put that very tree in dir by then |
| DeployDirs.DirAtMoment | apps/agent/internal/poller/poller.go:571-803 | what dir holds at every moment of a deploy that snapshotted: the old tree before the first rename and after the rename back, the deploy's own content in between |
| DeployDirs.PrevAtMoment | apps/agent/internal/poller/poller.go:571-803 | what dir.prev holds at every moment of a deploy that snapshotted |
| DeployDirs.LostBetweenTheRenames | apps/agent/internal/poller/poller.go:583-803 | a deploy of other content that crashes at any moment from the first rename to just before the end loses the old tree to the next failing deploy |
| DeployDirs.RefusedRestoreIsLostByTheNextDeploy | apps/agent/internal/poller/poller.go:785-803 | a refused restore leaves the tree in dir.prev and the next deploy deletes it |
| DeployDirs.FirstDeployHasSnapshot | apps/agent/internal/poller/poller.go:515-518 | a first git deploy is rolled back to an empty directory |
| DeployDirs.SmoothDeploy | apps/agent/internal/poller/poller.go:737-771 | what one completed deploy leaves behind |
| DeployDirs.AppDir.SnapshotAppDir | apps/agent/internal/poller/poller.go:785-795 | moves the directory aside over a cleared dir.prev, or reports why not |
| DeployDirs.AppDir.SwapBackSnapshot | apps/agent/internal/poller/poller.go:800-803 | the snapshot takes the place of the broken version |
| DeployDirs.AppDir.RunDeploy | apps/agent/internal/poller/poller.go:504-777 | every state the two directories pass through, the final one, and when the deploy counts as successful |
| DeployDirs.EvalComposeHealth | apps/agent/internal/poller/poller.go:877-893 | all up exactly when there are services and each is up, any dead exactly when one is dead, never both |
| DeployDirs.WaitForComposeHealthy | apps/agent/internal/poller/poller.go:898-919 | healthy exactly when the first observation that decides says so |
| Archive.TarGzDir | apps/agent/internal/tasks/runner.go:514-560 | one entry per visited path but the directory itself, in order |
| Archive.PlacedInside | apps/agent/internal/tasks/runner.go:586-593 | whatever an entry is called, it is written where its own cleaned components lead from the directory, below it by proper components; it is refused exactly when they lead outside |
| Archive.TextTestIsPathPrefix | apps/agent/internal/tasks/runner.go:586-593 | the test on the joined text, prefix plus slash, is the test on components |
| Archive.NeverOverBudget | apps/agent/internal/tasks/runner.go:570-632 | on any archive, at whatever entry it stops and inside whatever file the stream breaks off, the bytes on disk never exceed 2 GiB, and unless it broke off never what was counted |
| Archive.RebuildsExactlyWhenFits | apps/agent/internal/tasks/runner.go:514-632 | unpacking what was packed rebuilds every directory and regular file if and only if the files fit, and says over budget otherwise |
| Archive.FitsExactlyWhen | apps/agent/internal/tasks/runner.go:604-626 | the fit in closed form: less than 2 GiB, or exactly that and no empty file at the end |
| Archive.NameComesBack | apps/agent/internal/tasks/runner.go:528-535 | the name of an entry leads back to its path |
| Archive.UntarGz | apps/agent/internal/tasks/runner.go:570-632 | the extraction loop |
| Archive.ValidDockerName | apps/agent/internal/tasks/plans.go:22-37 | true exactly for names of at most 255 allowed characters with an alphanumeric first |
| Archive.DumpFileName | apps/agent/internal/tasks/plans.go:93-107 | a name exactly for valid ids of dumpable types |
| Archive.FileNameIsInjective | apps/agent/internal/tasks/plans.go:93-107 | two databases share a dump file if and only if they share id and format |
| Backups.Backup | apps/agent/internal/tasks/runner.go:264-343 | succeeds exactly when names are valid and dumps succeed, and every dump is in its file unless a later one took it over; the manifest lists them |
| Backups.StageDatabases | apps/agent/internal/tasks/runner.go:287-311 | the database half of it |
| Backups.StageVolumes | apps/agent/internal/tasks/runner.go:314-326 | the volume half, which leaves the first alone |
| Backups.Restore | apps/agent/internal/tasks/runner.go:403-471 | succeeds when every file is there and replays, feeding exactly those files in order; a file reported missing is missing |
| Backups.RestoreFindsWhatBackupWrote | apps/agent/internal/tasks/runner.go:264-471 | with distinct ids and names, every dump and volume that was backed up is what Restore finds after packing and unpacking, within the budget |
| EnvFile.ValueSurvivesExactlyWhen | apps/api/src/modules/applications/application-env.service.ts:64-110 | a value written and read back is itself if and only if it has no carriage return or Unicode line break, outer white space, surrounding quotes, unquoted comment or spelled-out backslash-n |
| EnvFile.PrintedFileReadsBack | apps/api/src/modules/applications/application-env.service.ts:64-110 | a printed file defines no variable but its own valid keys, whatever the values, and each reads back if and only if its value survives and it is not called __proto__ |
| EnvFile.FileRoundTripsExactlyWhen | apps/api/src/modules/applications/application-env.service.ts:64-110 | the whole file reads back as the map of its valid keys if and only if all of their values survive and none is called __proto__ |
| EnvFile.ProtoIsLost | apps/api/src/modules/applications/application-env.service.ts:84-105 | a variable called __proto__ is a valid key, and a file that defines it reads back as nothing |
| EnvFile.LastFileWins | apps/api/src/modules/applications/application-env.service.ts:80-109 | the last file has the last word on every key it defines |
| EnvFile.LoadRepoEnvFiles | apps/api/src/modules/applications/application-env.service.ts:80-110 | the loops over files and lines; the object drops __proto__ |
| EnvFile.KeyIsNotExport | apps/api/src/modules/applications/application-env.service.ts:92 | a printed key is never taken for the word export |
| EnvReading.QuotedLineReads | apps/api/src/modules/applications/application-env.service.ts:90-105 | a quoted value is what stands between its quotes, whatever `export`, white space, comment signs and other quotes there are |
| EnvReading.PlainLineReads | apps/api/src/modules/applications/application-env.service.ts:90-105 | a value without quotes ends where its comment or its white space begins |
| EnvReading.KeysAndQuotes | apps/api/src/modules/applications/application-env.service.ts:64-105 | which texts are keys and which characters quote |
| EnvReading.EndsAndComments | apps/api/src/modules/applications/application-env.service.ts:88-91 | a carriage return at the end does not matter; comments and empty lines define nothing |
| EnvReading.HighestPriorityDecides | apps/api/src/modules/applications/application-env.service.ts:80-110 | a variable has the value of the file of highest priority that defines it |
| EnvReading.NothingElseIsDefined | apps/api/src/modules/applications/application-env.service.ts:80-110 | what no file defines is not defined |
| ComposePorts.RemapRewritesHosts | apps/api/src/modules/applications/applications.helpers.ts:232-269 | parsing a remapped document gives the original definitions with their host sides rewritten one by one, whenever numbers that occur are read back from their text |
| ComposePorts.RemapIsIdempotent | apps/api/src/modules/applications/applications.helpers.ts:232-269 | remapping again with the same table changes nothing |
| ComposePorts.TableDecidesFirst | apps/api/src/modules/applications/applications.helpers.ts:232-269 | the host port of an entry is the table's, else the published one, else the container's; container port, protocol and service stay |
| ComposePorts.ShortEntryIsRewritten | apps/api/src/modules/applications/applications.helpers.ts:232-256 | the text of a short entry: address and protocol stay, the host side is rewritten |
| ComposePorts.LawIsMet | apps/api/src/modules/applications/applications.helpers.ts:232-269 | decimal reading and printing of numbers meets that condition for every table of ports |
| ComposePorts.StripLeavesTheUnreserved | apps/api/src/modules/applications/applications.helpers.ts:426-448 | what a stripped document publishes is exactly what was published on ports that are not reserved, in order |
| ComposePorts.StrippedPublishesNoReservedPort | apps/api/src/modules/applications/applications.helpers.ts:577-587 | no host port that the service itself reads as a reserved one is left |
| ComposePorts.EntryPublishes | apps/api/src/modules/applications/applications.helpers.ts:175-214 | what a short or a long entry publishes, told on its text and fields |
| ComposePorts.FilterAgreesExactlyWhen | apps/api/src/modules/applications/applications.helpers.ts:426-448 | the filter drops a host:container entry for a reserved port exactly as compose would publish it, except a range of ports that reaches over one, which it keeps |
| ComposePorts.ParseComposePorts | apps/api/src/modules/applications/applications.helpers.ts:175-214 | the loops over services and entries |
| ComposePorts.RemapComposePorts | apps/api/src/modules/applications/applications.helpers.ts:232-269 | the document rewritten in place, service by service |
| ComposePorts.StripReservedComposePorts | apps/api/src/modules/applications/applications.helpers.ts:426-448 | the document filtered in place; an empty list is deleted |

## Left out

- HTTP, Nest wiring, DTO validation, the dashboard's pages: wiring and presentation.
- Docker, git, bcrypt, JWT, encryption, SMTP, DNS: their answers are inputs; hashing and signing are injective.
- Real concurrency inside Postgres: a statement is one atomic step, so SKIP LOCKED never skips a row.
- Overlapping scheduler ticks, overlapping stale sweeps, two browser tabs sharing one cookie: outside what the code promises.
- The legacy refresh token of `api.ts`: a migration path used once per browser.
- AgentStaging.StagedExactlyWhen: is about directories that no payload names and runs in which the hooks run once, which `AgentTasks.HooksRunOnceExactlyWhen` delimits; `AgentStaging.PresentExactlyWhen` is about all directories and all runs.
- SftpResolve.ResolvedPathStaysInside: is about the roots for which it holds, as `SftpResolve.ActsUnderRootExactlyWhen` delimits them.
- ApiClient.SingleFlightNeverReplays: the browser's own refresh does not throw halfway, its response arrives, and nobody else holds a token of the family; `LoginStartsTheWorld` assumes that no request under way presents a token not yet issued.
- SftpResolve.Resolve: the file system does not change during the call, and roots are absolute.
- Lockout.AtMostFivePerWindow: attempts come one at a time, as the rows of one account are updated; two attempts that both see an expired lock may both restart the counter.
- Daylight saving and time zones: a linear local clock, so the closed form and the search meet no missing or repeated hour.
- The scrubbing of terminal payloads and the redaction of reports: nothing read afterwards depends on them.
- Deletion of servers with their task rows, and of projects: bulk deletes outside the protocol.
- tar, gzip and YAML formats: an archive is its list of entries, a compose document is what the loader returns.
- The agent's own archive extractors (`extractTarStream`, `extractZipInto`): the same placement and budget guards as `untarGz` with a list of managed names on top.
- Partial writes of a file that is being extracted: at most one byte beyond the budget is on disk before the file is removed.
- ComposePorts.RemapRewritesHosts: JavaScript's Number() and String() are parameters; the numbers read and the ports of the table must be read back from their text, as `ComposePorts.LawIsMet` shows can be. A null port is read like a missing one.
- ComposePorts.FilterAgreesExactlyWhen: is about host:container entries; binds to a bracketed IPv6 address are read by the service as it reads any text.
- Environment maps with keys that JavaScript reorders: integer-like keys, which `serializeEnv` drops anyway.
- The marketplace's rows for local installs: a second writer of the task table, which inserts RUNNING rows and closes them by id whatever their status, without hooks (`apps/api/src/modules/marketplace/marketplace.service.ts:626,935,1061,1098`); outside the protocol.
- The local deploy service, marketplace and Dockerfile templates, RBAC tables, password policy: string templates and finite tables.
