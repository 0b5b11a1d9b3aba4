# Comprehensive end-to-end suite: bookkeeping and scheduling model

This project models the bookkeeping and scheduling core of
`ComprehensiveEndToEndTestSuite` in `test.py`. That class drives a
multi-service dietary-assistant backend through eight phases:

1. database reset
2. user onboarding
3. personal agent assignment
4. rate-limited interactions
5. backend verification
6. error probes
7. group onboarding
8. direct group creation

It records one status line per phase in an insertion-ordered ledger
(`test_results`), and it cancels its background workers in a cleanup that
always runs. At the end it derives a pass/fail tally and a three-tier
readiness verdict.

The model is organised in these modules:

- **Types**: the scenario catalog (`USER_DATA`), the rate-limit policy, roster entries, interaction rows, and the events (store writes and pacing pauses).
- **Ledger**: `test_results` as a sequence of (name, line) entries with Python dict assignment semantics, and `log_test_result`'s status line.
- **Report**: the tallies and readiness tiers of `generate_comprehensive_report`.
- **Scheduler**: the pacing of the interaction phase. There is a reference plan (`Plan`) and a loop that runs it against a store that may raise (`Pace`), together with the write-order, pacing and read-back lemmas.
- **Supervisor**: the worker task handles and the notes cleanup produces.
- **Probes**: the four error probes and their tally.
- **Groups**: the invitation list, the `group_data` values, the add loop and the membership rule.
- **Suite**: the class `ComprehensiveSuite`. It holds the run state, and each phase is a method that updates the state in place. Cleanup and the orchestrator are methods too.

Every answer of a collaborator service or database is an input. These
answers are gathered in a `World`, and each one is a function of the
arguments the collaborator is called with.

## Model

| member | source | states |
|---|---|---|
| Types.Provision | test.py:209-215 | Definition of the roster entry built from a catalog user and the ids the collaborator returned; what the roster holds is proved by Suite.AssignedFollowsCatalog |
| Types.DistinctIds | test.py:501-508 | Definition: no two roster users share a user id; the hypothesis of Groups.CreatorNotInvited, Groups.InvitedAreOnRoster and Scheduler.PlanReadBack |
| Ledger.IsPass | test.py:659 | Definition: a line passes when it opens with the check mark; Ledger.StatusLine shows it holds exactly for a success |
| Ledger.StatusLine | test.py:97-101 | The stored line classifies as a pass exactly when the phase succeeded, and it ends with the message |
| Ledger.Lookup | test.py:100 | A key is found exactly when it is among the ledger's names |
| Ledger.Record | test.py:97-101 | After recording, the key maps to the new line and every other key keeps its line. An existing key keeps its position; a new key is appended at the end |
| Ledger.RecordKeepsDistinct | test.py:100 | Recording never creates a second entry under the same key |
| Ledger.LookupAt | test.py:100 | With distinct keys, each entry is the one its key looks up |
| Report.PassedCount | test.py:659 | The number of passing lines never exceeds the number of entries; Report.NoFailureIffAllPass says when it is all of them |
| Report.Tier | test.py:740-752 | Excellent exactly when nothing failed, Good exactly for one or two failures, Needs work exactly for more |
| Report.Summarize | test.py:656-660 | passed + failed = total = number of ledger entries, and the readiness is the tier of the failure count |
| Report.NoFailureIffAllPass | test.py:659-660 | No failure is counted exactly when every recorded line starts with the check mark |
| Report.FailedEntryRulesOutExcellent | test.py:659-660 | One failed line under any key means at least one failure and a verdict other than Excellent |
| Report.LookupIndex | test.py:659 | The line a key maps to sits at a position of the ledger, so the tally sees it |
| Scheduler.Kept | test.py:283 | The processed prefix has min(number of messages, cap) entries |
| Scheduler.Injected | test.py:288-296 | Definition of the row written for one message: the user's ids, the message, the fixed acknowledgement, unprocessed; its fields are stated by Scheduler.PlannedRows |
| Scheduler.MessageEvents | test.py:283-306 | Definition of one user's message loop: a write per kept message and a pause between two of them; its writes and pauses are proved by Scheduler.MessageEventsWrites and Scheduler.MessageEventsPauses |
| Scheduler.MessageEventsWrites | test.py:283-299 | From any message on, the message loop writes the remaining kept messages in order, with consecutive ids from the given one, every row unprocessed |
| Scheduler.MessageEventsPauses | test.py:304-306 | From any message on, the message loop pauses between messages one time fewer than the messages left, and makes no other kind of pause |
| Scheduler.UserGap | test.py:311-313 | Definition of the pause after a user, absent after the last one; counted by Scheduler.UserEventsPauses |
| Scheduler.UserEvents | test.py:277-313 | Definition of the user loop from one roster position on; its writes and pauses are proved by Scheduler.UserEventsWrites and Scheduler.UserEventsPauses |
| Scheduler.UserEventsWrites | test.py:277-313 | From any roster position on, the user loop writes each user's kept messages, users in roster order, with consecutive ids, every row unprocessed |
| Scheduler.UserEventsPauses | test.py:277-313 | From any roster position on, the user loop pauses between messages once fewer than each user's kept messages, summed, and between users once fewer than the users left; it makes no start-up or processing wait |
| Scheduler.Plan | test.py:274-317 | Definition of the whole schedule: start-up wait, the user loop, processing wait; its content is proved by Scheduler.PlanWritesFollowRoster and Scheduler.PlanPacing, and Scheduler.Pace runs it |
| Scheduler.PlanWritesFollowRoster | test.py:277-313 | The schedule's writes are exactly each user's first cap messages in their own order, users in roster order and never interleaved. The ids are consecutive from the first one, and every row is unprocessed with the acknowledgement |
| Scheduler.PlanPacing | test.py:274-317 | One start-up wait comes first and one processing wait comes last. Per user there is one message pause fewer than the kept messages, and between users one pause fewer than the number of users |
| Scheduler.UniformRoster | test.py:283 | With m messages per user, the kept total is users × min(m, cap), and each user pauses one time fewer than it keeps |
| Scheduler.ReadBack | test.py:324-327 | Definition of the per-user read-back query as a row count; its value after the schedule is proved by Scheduler.PlanReadBack |
| Scheduler.Stored | test.py:320-328 | Definition of `total_interactions` as the read-back counts summed over the roster; its value after the schedule is proved by Scheduler.StoredPlan |
| Scheduler.PlanReadBack | test.py:320-329 | After a full schedule, the read-back for each user of a roster with distinct ids finds exactly min(messages, cap) rows |
| Scheduler.StoredPlan | test.py:320-329 | The read-back total over the roster equals the number of messages kept |
| Scheduler.PlannedRows | test.py:286-299 | Any part of the plan that runs writes fresh consecutive ids, each row unprocessed with the acknowledgement |
| Scheduler.PaceUser | test.py:283-306 | One user's message loop completes exactly when no commit in its range raises. If it completes, its events are the user's block; otherwise it stops at the raising commit with exactly the earlier rows written |
| Scheduler.Pace | test.py:274-317 | The schedule completes exactly when no commit raises. If it completes, its events are the plan; otherwise it is a proper prefix of the plan cut just before a write, holding exactly the commits before the failure |
| Scheduler.PaceStage | test.py:277-313 | One pass of the user loop either reaches the next stage of the plan with the user's kept messages committed, or stops before the raising commit, which lies inside the plan |
| Supervisor.Task.constructor | test.py:265-269 | A new task handle carries the user's ids and its reaction, with no cancellation requested yet; Suite.ComprehensiveSuite.StartBackends creates one per roster user |
| Supervisor.Task.Cancel | test.py:635 | `cancel()` registers one more cancellation request |
| Supervisor.NoteFor | test.py:636-641 | Cleanup reports a cancellation exactly for a worker that ends cancelled, an error for one that raises, and nothing for one that had returned |
| Supervisor.Notes | test.py:634-641 | One note per worker in order, with 1-based positions |
| Supervisor.Reactions | test.py:634 | The reactions of the handles, in list order |
| Probes.FirstNamed | test.py:402 | `next(...)` finds nothing exactly when no roster user has the name; otherwise it finds the first one that does |
| Probes.Gathered | test.py:437-443 | The gathered results are one per connection, in order, each being whether that connection succeeded |
| Probes.CountTrue | test.py:444 | The count of successes never exceeds the number of results; its relation to the failures is proved by Probes.CountTrueAndFalse |
| Probes.CountFalse | test.py:444-446 | Definition of the number of connections that ended in an exception; used by Probes.StressPassesIffFewFailures |
| Probes.CountTrueAndFalse | test.py:444-446 | Successes and failures add up to the number of connections |
| Probes.StressPasses | test.py:446 | Definition: at least eight successful connections; characterised by Probes.StressPassesIffFewFailures |
| Probes.StressPassesIffFewFailures | test.py:446 | Over ten connections, the stress probe passes exactly when at most two fail |
| Probes.DuplicatePasses | test.py:394-410 | Definition: the duplicate probe passes on a raise, or when the returned user id is that of the first roster user named Alice; characterised by Probes.DuplicateReturnedPasses and Probes.EmptyRosterTally |
| Probes.DuplicateReturnedPasses | test.py:396-405 | When ids are returned, the probe passes exactly when the first roster user named Alice exists and has the returned user id; the agent id plays no part |
| Probes.Verdicts | test.py:392-474 | Definition of the four probe verdicts in order; their tally is bounded by Probes.TallyBounds and Probes.EmptyRosterTally |
| Probes.TallyBounds | test.py:388-477 | The tally is between 1/4 and 4/4, and it is 4/4 exactly when all four probes pass |
| Probes.EmptyRosterTally | test.py:402-463 | On an empty roster the duplicate probe passes only on a raise, and the tally is at most 3/4 |
| Probes.InvalidRow | test.py:417-425 | Definition of the row the invalid-data probe commits: unknown user and agent ids, empty input and output, unprocessed; whether it is stored is stated by Probes.ProbeRows and Suite.ComprehensiveSuite.CommitProbeRows |
| Probes.LargeRow | test.py:460-468 | Definition of the large-data row for the first roster user, carrying the 50 000-character message; whether it is stored is stated by Probes.ProbeRows and Suite.ComprehensiveSuite.CommitProbeRows |
| Probes.LargeMessage | test.py:458 | Definition of the 50 000-character message; the row carrying it is counted by Probes.ProbeRows |
| Probes.ProbeRows | test.py:413-474 | The probes keep one row per successful commit, with consecutive ids from the next free one |
| Groups.InvitedIds | test.py:502 | The invited ids are the ids of every roster user after the first, in order |
| Groups.CreatorNotInvited | test.py:501-502 | With distinct ids, the creator is never invited |
| Groups.PositionOf | test.py:506-508 | The name lookup finds the first roster user with the id |
| Groups.InvitedAreOnRoster | test.py:502-508 | Every invited id names a roster user. With distinct ids, the lookup finds the invited user itself |
| Groups.OnboardingRecord | test.py:552-557 | Definition of the four-key `group_data` value; when it is stored is stated by Suite.ComprehensiveSuite.GroupOnboarding |
| Groups.DirectUpdate | test.py:610-613 | The update sets the direct group id and members and keeps every other key |
| Groups.AddedCount | test.py:591-593 | The number of `Added` replies never exceeds the number of replies; Suite.ComprehensiveSuite.AddMembers returns it for the completed adds |
| Groups.MembershipComplete | test.py:615 | Definition of the membership rule (as many members listed as roster users); used by Suite.ComprehensiveSuite.DirectGroup and Suite.PhasePasses |
| Groups.Completed | test.py:583-596 | The completed adds are the replies before the first raise |
| Groups.CompletedUpTo | test.py:583-596 | Any position with no raise before it, which is the end or a raise, bounds the completed adds |
| Suite.AllOnboarded | test.py:141-185 | Definition of the corrected onboarding pass condition (see "## Findings"): every catalog user gets a new session; Suite.ComprehensiveSuite.OnboardUsers passes exactly when it holds |
| Suite.Assigned | test.py:197-234 | Definition of the users the registration loop appends, stopping at the first raise or the first user not found in the store; its shape is proved by Suite.AssignedFollowsCatalog, and Suite.ComprehensiveSuite.Register computes it |
| Suite.AllAssigned | test.py:197-248 | Definition of the agent-assignment pass condition: every catalog user is registered and found in the store; Suite.ComprehensiveSuite.Register and Suite.ComprehensiveSuite.AssignAgents succeed exactly when it holds |
| Suite.AssignedFollowsCatalog | test.py:197-234 | At most one roster entry per catalog user; the k-th entry is built from the k-th catalog user with its returned ids; every catalog user is appended when assignment fully succeeds |
| Suite.DefaultSchedule | test.py:47-95 | With the shipped catalog and limits, the phase commits 15 rows and pauses 12 times between messages and twice between users |
| Suite.AsWrittenOnboardingRulesOutExcellent | test.py:147 | A ledger holding the as-written onboarding line for the shipped catalog has a failure and is not Excellent |
| Suite.UpdatedPersonas | test.py:348-361 | The persona count never exceeds the roster |
| Suite.AddReplies | test.py:583-596 | One add call per roster user, in order |
| Suite.NextPhase | test.py:781-788 | Each phase appends its own key after the keys of the earlier phases |
| Suite.PhaseNamesDistinct | test.py:781-788 | The eight phase keys are pairwise different |
| Suite.PhasesRun | test.py:779-792 | Definition of how many phases run before an interruption; what those phases record is proved by Suite.ComprehensiveSuite.RunPhases and Suite.ComprehensiveSuite.RunSuite |
| Suite.PhasePasses | test.py:103-624 | Definition of each phase's pass condition, onboarding as corrected (see "## Findings"), on the world's answers and the roster the phase finds; the phase methods record a pass exactly when it holds |
| Suite.RosterAt | test.py:192-253 | Definition of the roster each phase finds: the initial one up to agent assignment, then with the registered users appended |
| Suite.RecordPhase | test.py:97-101 | Recording a phase's line keeps the earlier phases' reports and adds the phase's own |
| Suite.ReportsExtend | test.py:97-101 | A ledger that changes only phase j's key, setting it to a line that passes exactly when phase j passes, reports one phase more |
| Suite.ReportIffAllPass | test.py:656-660 | A ledger holding exactly the eight phases' lines counts no failure exactly when every phase's pass condition holds |
| Suite.EmptyRosterNotExcellent | test.py:260-261 | When the roster is still empty after agent assignment, the interaction phase records a failure and the verdict cannot be Excellent |
| Suite.AssignedStep | test.py:197-234 | One step of the registration loop: a raise stops it, a registered user is appended and the loop goes on only if the user is found in the store |
| Suite.Listed | test.py:573-599 | Definition of how far the direct-group phase gets: a non-empty roster, a created group, no raising add and an answered member listing; Suite.ComprehensiveSuite.DirectGroup updates `group_data` exactly when it holds |
| Suite.AppendFresh | test.py:286-299 | Rows with consecutive ids from the next free id keep every stored id distinct |
| Suite.ComprehensiveSuite.constructor | test.py:40-95 | The ledger, roster, group data, task list and store start empty, with the shipped limits and catalog |
| Suite.ComprehensiveSuite.Log | test.py:97-101 | The ledger gains or replaces exactly the entry for the key, and nothing else changes |
| Suite.ComprehensiveSuite.ResetDatabases | test.py:103-132 | Passes exactly when all four schema resets and the table listing complete. The interaction store is emptied once the first reset ran |
| Suite.ComprehensiveSuite.OnboardUsersAsWritten | test.py:134-190 | As written, the phase passes only for an empty catalog |
| Suite.ComprehensiveSuite.OnboardUsers | test.py:134-190 | With the import fixed, the phase passes exactly when every catalog user gets a new session |
| Suite.ComprehensiveSuite.Register | test.py:197-234 | The registration loop appends exactly the entries `Assigned` describes, and it succeeds exactly when every catalog user is registered and found |
| Suite.ComprehensiveSuite.AssignAgents | test.py:192-253 | The roster grows by the registered users, and the phase passes exactly when all catalog users are registered and found |
| Suite.ComprehensiveSuite.StartBackends | test.py:263-270 | One fresh worker per roster user, in order, each kept in the task list |
| Suite.ComprehensiveSuite.RunSchedule | test.py:274-317 | The timeline gains the paced events and the store gains their rows, under fresh ids |
| Suite.ComprehensiveSuite.CountStored | test.py:320-329 | The read-back total is the per-user count of stored rows, summed over the roster |
| Suite.ComprehensiveSuite.Interactions | test.py:255-336 | An empty roster fails before any worker starts or any row is written. Otherwise it passes exactly when every commit and the read-back succeed. The events are the plan, or the plan cut before the raising commit, and the total is the read-back |
| Suite.ComprehensiveSuite.CountPersonas | test.py:348-361 | The persona count is the number of roster users whose persona has data |
| Suite.ComprehensiveSuite.VerifyBackend | test.py:338-381 | Fails only when a query raises. It then reports the persona count and the calendar entries |
| Suite.ComprehensiveSuite.StressProbe | test.py:435-446 | Ten gathered connection results, and the number that succeeded |
| Suite.ComprehensiveSuite.Commit | test.py:413-474 | A successful commit appends the row under the next free id |
| Suite.ComprehensiveSuite.TallyProbes | test.py:388-474 | The tally is the count of passing verdicts out of four |
| Suite.ComprehensiveSuite.CommitProbeRows | test.py:413-474 | The store gains exactly the rows whose probe commits succeed |
| Suite.ComprehensiveSuite.ErrorProbes | test.py:383-481 | Carries the tally, keeps the probe rows, and always records a pass for the phase |
| Suite.ComprehensiveSuite.GroupOnboarding | test.py:490-566 | Passes exactly when there are at least three users and the session count grew. `group_data` is replaced only when the creator's session row is found |
| Suite.ComprehensiveSuite.AddMembers | test.py:583-596 | Stops exactly when an add raises, and counts the successful adds before it |
| Suite.ComprehensiveSuite.DirectGroup | test.py:568-624 | Passes exactly when the member list is as long as the roster. `group_data` is updated whenever the listing is reached. A short list records the short message, and any raise or an empty roster records a failure |
| Suite.ComprehensiveSuite.CleanupBackendProcesses | test.py:626-649 | Each pending worker is cancelled exactly once, in order, with one note per worker, and the list ends empty |
| Suite.ComprehensiveSuite.RunPhase | test.py:781-788 | A phase records exactly its own ledger key, with a line that passes exactly when the phase's pass condition holds. Only agent assignment changes the roster, and only the interaction phase starts workers |
| Suite.ComprehensiveSuite.RunSetupPhase | test.py:781-783 | Reset, onboarding and agent assignment each record their own key, passing exactly when their condition holds (onboarding as corrected, see "## Findings"), and start no worker |
| Suite.ComprehensiveSuite.RunInteractionsPhase | test.py:784 | The interaction phase records its own key, passing exactly when the roster is non-empty, no commit raises and the read-back succeeds, and adds exactly the workers it starts to the task list |
| Suite.ComprehensiveSuite.RunCheckPhase | test.py:785-788 | The last four phases each record their own key, passing exactly when their condition holds, and start no worker |
| Suite.ComprehensiveSuite.RunBackendPhase | test.py:785-786 | Verification passes exactly when its queries succeed, and the probes phase always passes |
| Suite.ComprehensiveSuite.RunGroupPhase | test.py:787-788 | Group onboarding and direct group creation each pass exactly when their condition holds |
| Suite.ComprehensiveSuite.RunGroupOnboardingPhase | test.py:787 | Group onboarding records its key, passing exactly when there are at least three users and the session was created |
| Suite.ComprehensiveSuite.RunDirectGroupPhase | test.py:788 | Direct group creation records its key, passing exactly when the listing is reached and the member list is as long as the roster |
| Suite.ComprehensiveSuite.RunNextPhase | test.py:781-788 | Running the next phase extends the ledger's reports by that phase and moves the roster on to the one the following phase finds |
| Suite.ComprehensiveSuite.RunPhases | test.py:781-788 | Starting from an empty ledger, the ledger's keys are the run phases' names in order. Every run phase's line passes exactly when its condition holds on the roster it found |
| Suite.ComprehensiveSuite.RunSuite | test.py:770-800 | Cleanup always runs: every worker ever started ends with one cancellation and the task list is empty. The report is produced exactly when no interruption escaped, and it summarises the ledger. Every run phase's line passes exactly when its condition holds (onboarding as corrected, see "## Findings"), and from an empty ledger the report counts no failure exactly when all eight phases pass |

## Left out

- Database access is not modelled: SQL queries, sessions, schemas, `sqlite_master` listings and row timestamps. Each outcome is an input instead (`ResetReply`, `failAt`, `readBackOk`, `invalidCommitOk`, `largeCommitOk`).
- The collaborator services are not modelled: onboarding, user creation, group service and the Gemini-backed workers. Each is a function of its arguments in `World`, so calling one twice with the same arguments gives the same answer.
- Real time and concurrency are not modelled. `asyncio.sleep` is a recorded pause and `asyncio.gather` is an ordered list of results (`Probes.Gathered`). The workers' own processing is not modelled.
- Wall-clock timing, the floating-point success rate and all console printing are left out. Message templates are kept unrendered, with their `{...}` fields as written.
- uuid4 identifiers are modelled as a counter of issued identifiers, which makes freshness explicit.
- Suite.ComprehensiveSuite.RunSuite: an interruption (a `BaseException` such as cancellation) is modelled only at the entry of a phase, not in the middle of one. An interruption at position 8 or later arrives after the last phase: all eight phases run, and there is still no report.
- Suite.ComprehensiveSuite.CleanupBackendProcesses: a `BaseException` other than cancellation raised while awaiting a worker is not modelled.
- Suite.ComprehensiveSuite.Register: a raise in the user or persona query after registration is not told apart from a user missing from the store. Both end the loop with the user already on the roster and fail the phase, so `inStore` being false stands for either.
- Suite.ComprehensiveSuite.Register: the roster grows after the registration loop rather than inside it. The phase's final state is the same.
- Suite.ComprehensiveSuite.ErrorProbes: the tally and the probe commits are computed separately. Their relative order is not observable in the model.
- Suite.ComprehensiveSuite.VerifyBackend: the persona and calendar queries are reduced to their counts. The per-row printing is not modelled.
- `main_personal.py` and the `main()` entry point are not part of this model.

## Findings

| source | as written | input that shows it | evidently intended | confidence | as-written member | corrected member |
|---|---|---|---|---|---|---|
| test.py:147 | `test_user_onboarding_detailed` calls `text(...)`, but `text` is imported only inside other methods (test.py:124, 486, 512, 708). The first loop iteration raises `NameError`, so the phase always records a failure | the shipped three-user catalog, or any non-empty `USER_DATA`, whatever the onboarding service answers | import `text` as the other phases do, so that the phase passes exactly when every catalog user gets a new session | high (not executed) | Suite.ComprehensiveSuite.OnboardUsersAsWritten, with Suite.AsWrittenOnboardingRulesOutExcellent showing that the Excellent tier is then unreachable | Suite.ComprehensiveSuite.OnboardUsers, used by the orchestrator |
