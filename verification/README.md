# Schedjuice backend: verified models

Dafny models of the stateful and arithmetic cores of the Django backend, with proofs of what
they promise. Each area has a specification (a state and the operations on it as functions), an
imperative form with the backend's fields and loops proved against that specification, a file of
lemmas about every input or every run, and where an operation has many outcomes a file of effects:
what it answers and writes, told without the specification's own functions.
`dafny verify dfyconfig.toml` checks all of it.

Tables are maps keyed by their unique keys, or sets of rows with the uniqueness stated. One
request is one atomic step. Instants are integers on a clock that never runs backwards, money is
a number of 1e-8 USD, and a tenant's time zone is a fixed offset. Whatever the model, a tool or a
parser of prompts may answer is an arbitrary function or an arbitrary parameter.

| area | specification | imperative form | lemmas |
|---|---|---|---|
| attendance god-view | `GodView`, `AttendanceTables` | `GodView` | `GodView` |
| course marking gaps | `MarkingGaps` | `MarkingGaps` | `MarkingGaps` |
| course attendance summary | `AttendanceSummary` | `AttendanceSummary` | `AttendanceSummary` |
| roster pending turns | `RosterTurns` | `RosterChannel` | `RosterSafety`, `RosterEffects` |
| refresh sessions, mobile devices | `RefreshSessions` | `SessionStore` | `SessionSafety`, `SessionEffects` |
| user import | `ImportRows`, `ImportCommit` | `ImportRows`, `ImportStore` | `ImportRows`, `ImportSafety`, `ImportEffects` |
| pricing and usage | `Pricing` | `UsageLedger` | `Pricing`, `UsageLedger` |
| tool loop | `ToolLoop` | `ToolLoop` | `ToolLoopSafety`, `ToolLoopEffects` |
| leave requests | `LeaveRequests` | `LeaveDesk` | `LeaveSafety`, `LeaveEffects` |
| session check-in | `CheckIn` | `CheckInDesk` | `CheckInSafety`, `CheckInEffects` |

## Where the code does not do what one would expect

The models follow the code. Where a promised property fails, a lemma gives an input and another
gives the condition under which it holds.

- God-view: the query ranks sessions of one date by time and id, the walk keeps the order of a
  stable sort by date. Unless sessions share even their time, their streaks agree for all marks
  exactly when dates differ.
- Marking gaps: the overview counts marks of all students in scope, the detail only those of the
  roster. One mark of a student of another course makes the overview miss an unregistered slot.
- Roster turns: "no" declines a switch in the first resolver and is a cancel word for the later
  ones, so the row the decline restored is dropped in the same turn, and so it is with "stop",
  "cancel" and "abort". "n" is also the letter of a fourteenth candidate, so over a question with
  that many the decline is at once taken as an answer. A switch over both a question and a write
  snapshots the question only, and the write may run out meanwhile. A Telegram button addresses a
  row that later proposals overwrite in place.
- Roster turns: a typed confirmation executes, then edits the Telegram message, then clears. When
  the edit raises (the message was deleted, the service timed out) the executed write stays
  pending, and the next confirmation executes it a second time.
- Sessions: a superseded token that has itself expired is refused before its session is looked
  up, so presenting it does not revoke the session.
- Import: the check for earlier enrolments goes by the email of a row, not by the user it was
  matched to; two rows matched to one user record one enrolment twice; a row that names an id the
  same import hands out can make the second commit fill another user; merged course ids keep the
  repetitions of the first row; and where a new row shares its email with a row that names a stored
  user (not after deduping), the report names that user as created.
- Usage: a rollup takes its month from a clock read before the log row is stamped, so a call at
  the turn of a month is in different months of the two views. The list of users read from the log
  has a row for calls without a user, the list read from the rollup has not.
- Tool loop: the usage row of a tool round keeps the last entry of that round only, so a loop that
  runs out of rounds loses the other entries. With an organization's own tools the read-turn guard
  never withholds anything, because the selection for a read turn has already left those tools out
  and they are answered as not allowed; the retry as a write turn, which waits for the guard's
  text, is then reached only when a tool's own error repeats it.
- Leave: approval fails as a whole when a covered event has a soft-deleted row; a note that names
  leave 12 is taken to name leave 1; and a student who also has another role is looked up by the
  roster again and again, so a staff mark of absent on a covered day does not last.
- Check-in: a grace of zero minutes means zero for live check-in and five for self-correction, and
  a bonus of zero is frozen by a correction but not by a live check-in.

## Model

| member | source | states |
|---|---|---|
| `GodView.BuildTimeline` | schedjuice-reimagined-be/app_attendance/god_view_services.py:581-592 | the timeline of a student lists, in session order, the status a live mark gives, and unregistered where there is none |
| `GodView.ComputeStreakAndLast` | schedjuice-reimagined-be/app_attendance/god_view_services.py:373-391 | the walk returns the position of the first attended entry (the length if none), that entry's session, and the head's status |
| `GodView.RankIsPosition` | schedjuice-reimagined-be/app_attendance/god_view_sql.py:44-60 | in a list ordered as the query orders, the row number of a session is its position plus one |
| `GodView.FirstAttendedRankIsWalk` | schedjuice-reimagined-be/app_attendance/god_view_sql.py:61-129 | the least attended row number minus one, or the session count, is the number of entries the walk passes, and it names the same session |
| `GodView.LatestStatusIsHead` | schedjuice-reimagined-be/app_attendance/god_view_sql.py:61-129 | the greatest status among the marks ranked first is the status at the head of the timeline |
| `GodView.QueryAgreesWithWalk` | schedjuice-reimagined-be/app_attendance/god_view_sql.py:44-129 | for every set of unique marks the query's streak, last attended session and latest status are those of the newest-first walk |
| `GodView.QueryCountsTheTimeline` | schedjuice-reimagined-be/app_attendance/god_view_sql.py:76-129 | the query's present, late and absent counts, the unregistered count got by subtraction and the absences of the last week are numbers of timeline positions |
| `GodView.WindowIsWholeDays` | schedjuice-reimagined-be/app_attendance/god_view_sql.py:44-67 | the last week runs from the first minute of the UTC day seven days back through the last minute of today |
| `GodView.SummaryCountsTheSlots` | schedjuice-reimagined-be/app_attendance/god_view_sql.py:173-186 | for whichever pairs of student and course the rate filter leaves, the summary's totals over their rows are the numbers of their scheduled slots, of the attended ones and of the ones missed in the last week |
| `GodView.StreaksAgreeIffRankOrder` | schedjuice-reimagined-be/app_attendance/god_view_services.py:373-396 | query and walk give the same streak for all marks if and only if the walk's list is in the query's order |
| `GodView.StreaksAgreeIffTiesFollowIds` | schedjuice-reimagined-be/app_attendance/god_view_services.py:394-395 | with a list sorted by date alone, they agree for all marks if and only if sessions that share a date also share their time and are listed by descending id |
| `GodView.StreaksAgreeIffDatesDiffer` | schedjuice-reimagined-be/app_attendance/god_view_services.py:394-395 | so for a course where no two sessions share both date and time, they agree for all marks if and only if no two share a date |
| `MarkingGaps.AddUp` | schedjuice-reimagined-be/app_attendance/god_view_services.py:845-905 | adding the grouped query up by course gives each course the tally of its groups per bucket, leave counting as absent |
| `MarkingGaps.TallyIsRowCount` | schedjuice-reimagined-be/app_attendance/god_view_services.py:866-905 | a course's tally is the number of live marks of pooled students at the course's sessions in that bucket |
| `MarkingGaps.BuildGapRow` | schedjuice-reimagined-be/app_attendance/god_view_services.py:984-1026 | the row's counts are those numbers of marks, and unregistered is sessions times roster size less the three |
| `MarkingGaps.BuildDetail` | schedjuice-reimagined-be/app_attendance/god_view_services.py:1098-1133 | the detail lists each slot of roster and session that matches the problem exactly once, with the status, streak and last attended day of its student |
| `MarkingGaps.DetailSize` | schedjuice-reimagined-be/app_attendance/god_view_services.py:1098-1133 | a detail for one status has as many rows as the grid of roster and sessions has cells of that status |
| `MarkingGaps.OverviewExcess` | schedjuice-reimagined-be/app_attendance/god_view_services.py:866-905 | per status the overview exceeds the detail by the marks of students in scope who are not on the course's roster |
| `MarkingGaps.OverviewAgreesIffNoStrays` | schedjuice-reimagined-be/app_attendance/god_view_services.py:887-1026 | overview and detail agree on every status if and only if there is no such mark; the unregistered count is short by their number |
| `MarkingGaps.StrayMarkHidesAGap` | schedjuice-reimagined-be/app_attendance/god_view_services.py:872 | a concrete scope where a mark from another course's student hides an unregistered slot |
| `MarkingGaps.DominantProblem` | schedjuice-reimagined-be/app_attendance/god_view_services.py:259-270 | the status with the most slots, ties going to unregistered, then absent, then late |
| `AttendanceTables.RowsAreCells` | schedjuice-reimagined-be/app_attendance/models.py:70-71 | because a mark is unique per student and session, counting marks and counting grid cells of a registered status agree |
| `AttendanceTables.BucketsPartition` | schedjuice-reimagined-be/app_attendance/god_view_services.py:247-256 | every cell of the grid is in exactly one bucket, so the four sum to students times sessions |
| `AttendanceSummary.MonthAnchors` | schedjuice-reimagined-be/app_attendance/attendance_summary.py:41-61 | the anchors are all months from start to end, each once, in order; none without both dates |
| `AttendanceSummary.CountSessions` | schedjuice-reimagined-be/app_attendance/attendance_summary.py:131-147 | the dictionary holds, per month, the number of sessions |
| `AttendanceSummary.CountAttended` | schedjuice-reimagined-be/app_attendance/attendance_summary.py:149-166 | the dictionary holds, per student and month, the number of attended marks |
| `AttendanceSummary.BuildSummary` | schedjuice-reimagined-be/app_attendance/attendance_summary.py:117-216 | every number of the summary, by student and month, by student, by month and over all, counts marks and slots; it is empty without students or months |
| `AttendanceSummary.SumsAreCounts` | schedjuice-reimagined-be/app_attendance/attendance_summary.py:168-216 | each of these sums is a count of marks and of slots of its student, month or whole course |
| `AttendanceSummary.BothOrdersAgree` | schedjuice-reimagined-be/app_attendance/attendance_summary.py:168-216 | rows and months are the sums of their cells, student totals and class month totals both sum to the grand total, and in no cell, row, month or grand total does attended exceed scheduled |
| `AttendanceSummary.BuildMatrix` | schedjuice-reimagined-be/app_attendance/attendance_summary.py:231-288 | the matrix shows, per student and session of a month, the status a lookup yields, and counts the attended ones |
| `AttendanceSummary.CellIsMatrixTotal` | schedjuice-reimagined-be/app_attendance/attendance_summary.py:231-288 | for every month a student's cell in the summary equals the total of the student's matrix row |
| `RosterSafety.DeclineRestoresPending` | schedjuice-reimagined-be/app_ai/roster_intent.py:234-379 | from any mix of rows, opening a switch and declining it brings the snapshotted row back with every field, under a new expiry and without its Telegram message |
| `RosterSafety.SwitchStaysUp` | schedjuice-reimagined-be/app_ai/roster_intent.py:382-439 | an unexpired switch prompt survives requests that neither answer it nor name a role, and the replies to them; a write beside it changes its message only, or runs out |
| `RosterSafety.DeclineAfterAnyWait` | schedjuice-reimagined-be/app_ai/roster_intent.py:332-379 | the same restoration after any number of such requests and replies in between; a restored write has no Telegram message |
| `RosterSafety.DeclineRevivesAllRows` | schedjuice-reimagined-be/app_ai/roster_intent.py:234-252 | declining leaves every row active if and only if a write that stood beside a question has not reached its own expiry, which the decline does not renew |
| `RosterSafety.DeclineSurvivesTheTurn` | schedjuice-reimagined-be/app_ai/service.py:133-209 | for any declining word (which names no role) the turn ends without a row if and only if the word is one that cancels ("no", "stop" and their like), or it also picks a candidate of a restored answerable question and the answering tool ends, is not ambiguous, and there is no write; without such a pick "n" and "nope" leave the restored rows as they are |
| `RosterSafety.DecliningLetterAnswersTheQuestion` | schedjuice-reimagined-be/app_ai/tools/intent.py:58-62 | declining with "n" over a choice among fourteen roles restores the question and answers it with candidate N in the same turn: the tool runs and no row is left |
| `RosterChannel.Channel.Attach` | schedjuice-reimagined-be/app_telegram/tasks.py:118-147 | after a reply the active write remembers the chat and message it was shown in |
| `RosterSafety.TurnExecutesAtMostOnce` | schedjuice-reimagined-be/app_ai/service.py:133-209 | the three resolvers and the model's tools together execute at most one roster action in a turn, and then leave a row if and only if the edit of the confirmed Telegram message failed |
| `RosterSafety.ConfirmationClearsIff` | schedjuice-reimagined-be/app_ai/confirmation.py:224-247 | a typed confirmation of an active write clears the channel whatever becomes of the edit if and only if the write remembers no Telegram message or the action does not succeed |
| `RosterSafety.StepKeepsInv` | schedjuice-reimagined-be/app_ai/roster_intent.py:223-278 | every operation keeps that a stored switch snapshots a question or a write, that pending proposals are known, and that a pending proposal was executed once for each failed edit of its message and any other at most once more |
| `RosterSafety.ExecutionsAreFailedEditsAndOneMore` | schedjuice-reimagined-be/app_ai/confirmation.py:192-247 | over any run a proposal is executed once for every failed edit of its message and at most once more, and not once more while it is pending, restored ones included; none is executed after its expiry |
| `RosterSafety.NoProposalExecutedTwice` | schedjuice-reimagined-be/app_ai/confirmation.py:192-247 | in a run whose edits go through no proposal is executed twice, restored ones included |
| `RosterSafety.NoneTwiceOutsideTelegram` | schedjuice-reimagined-be/app_ai/confirmation.py:224-241 | outside Telegram nothing is edited, and no run executes a proposal twice |
| `RosterSafety.LeftoverExecutesAgain` | schedjuice-reimagined-be/app_ai/confirmation.py:224-247 | after a failed edit the executed write is still pending: before it expires the next typed confirmation that meets no switch prompt, or a press of its button, executes it again |
| `RosterSafety.FailedEditExecutesTwice` | schedjuice-reimagined-be/app_telegram/client.py:98-128 | a proposal, its reply, a "yes" whose edit fails and a second "yes" execute the one proposal twice |
| `RosterSafety.ExecutionClearsTheChannel` | schedjuice-reimagined-be/app_ai/roster_intent.py:306-356 | a request or press executes one proposal at most and then leaves no pending row if and only if it was not a typed confirmation whose edit failed |
| `RosterSafety.ButtonFollowsTheRow` | schedjuice-reimagined-be/app_telegram/callbacks.py:27-97 | saving overwrites the row under its key, so an older message's button executes the newer proposal |
| `RosterEffects.SavesLeave` | schedjuice-reimagined-be/app_ai/disambiguation.py:23-45 | of what a tool saves the last proposal is pending, word for word, under the earlier row's key and for ten minutes, and a question is pending only if it was saved last |
| `RosterEffects.RowsRunOut` | schedjuice-reimagined-be/app_ai/disambiguation.py:48-58 | a row counts until the instant it expires; a question or a switch prompt that ran out is dropped unanswered |
| `RosterEffects.OpensIff` | schedjuice-reimagined-be/app_ai/roster_intent.py:382-439 | a switch prompt goes up, for ten minutes, if and only if the prompt is an explicit command for another tool than the one something is pending for; otherwise active rows stay |
| `RosterEffects.AcceptedSwitchRunsTheCommand` | schedjuice-reimagined-be/app_ai/roster_intent.py:306-356 | accepting a switch, at once or after any unrelated requests and replies, runs the opening command's tool with its own arguments, executes the tool's last proposal word for word if the tool asks for confirmation, and leaves no row unless something raised |
| `RosterEffects.PendingWriteAnswers` | schedjuice-reimagined-be/app_ai/confirmation.py:192-256 | with an active write a cancel word drops all rows, a confirming word in Telegram executes that write, and anything but a named role is reminded of it; nothing else is executed |
| `RosterEffects.NoWriteNoAnswer` | schedjuice-reimagined-be/app_ai/confirmation.py:199-201 | without an active write the second resolver only drops one that ran out |
| `RosterEffects.NamedRoleProposesAnew` | schedjuice-reimagined-be/app_ai/confirmation.py:140-189 | a named role calls the assignment tool for the same person, course and weekdays with that role; the old proposal is dropped, and the new one takes over its Telegram message if it asks for confirmation |
| `RosterEffects.PendingQuestionAnswers` | schedjuice-reimagined-be/app_ai/disambiguation.py:105-165 | a choice runs the question's tool with the chosen id under the field's own argument, without the query it settles and with all other arguments as they were |
| `RosterEffects.WordsAgree` | schedjuice-reimagined-be/app_ai/tools/intent.py:46-48 | which words accept, decline, confirm and cancel: confirming words accept, only "no" both declines and cancels, and no word means yes and no |
| `RosterEffects.ButtonsDo` | schedjuice-reimagined-be/app_telegram/callbacks.py:66-103 | the confirm button of an active write executes that write, the cancel button none; both leave no row, and a button of another row does nothing |
| `RosterEffects.RepliesAttach` | schedjuice-reimagined-be/app_telegram/tasks.py:118-147 | a reply only adds the message an active write was shown in |
| `RosterEffects.ResolversRunInOrder` | schedjuice-reimagined-be/app_ai/service.py:133-209 | switch, write and question are resolved in this order, each on what the one before left; one that raises ends the request, and the model's tools run only if none of them acted |
| `RosterChannel.Channel.SavePending` | schedjuice-reimagined-be/app_ai/disambiguation.py:23-45 | upserts the question with a fresh expiry |
| `RosterChannel.Channel.GetActivePending` | schedjuice-reimagined-be/app_ai/disambiguation.py:48-58 | returns the question if unexpired, deleting an expired one |
| `RosterChannel.Channel.SaveWriteConfirmation` | schedjuice-reimagined-be/app_ai/confirmation.py:44-74 | drops the question and upserts the write under its key, without Telegram ids |
| `RosterChannel.Channel.GetActiveWriteConfirmation` | schedjuice-reimagined-be/app_ai/confirmation.py:77-89 | returns the write if unexpired, deleting an expired one |
| `RosterChannel.Channel.RestorePriorPending` | schedjuice-reimagined-be/app_ai/roster_intent.py:255-278 | rebuilds the snapshotted row as the specification does |
| `RosterChannel.Channel.ExecuteExplicitCommand` | schedjuice-reimagined-be/app_ai/roster_intent.py:306-330 | runs the tool; if it left a write, executes it and clears the channel |
| `RosterChannel.Channel.ResolveSwitchConfirm` | schedjuice-reimagined-be/app_ai/roster_intent.py:332-379 | yes runs the new command, no restores, anything else reminds |
| `RosterChannel.Channel.TryResolveSwitch` | schedjuice-reimagined-be/app_ai/roster_intent.py:382-439 | the first resolver as a whole |
| `RosterChannel.Channel.TryRoleOverride` | schedjuice-reimagined-be/app_ai/confirmation.py:140-189 | a role named while a write is pending re-proposes it with that role |
| `RosterChannel.Channel.EditConfirmMessage` | schedjuice-reimagined-be/app_ai/confirmation.py:112-124 | edits the remembered message, if there is one, and fails only there |
| `RosterChannel.Channel.TryResolveConfirmation` | schedjuice-reimagined-be/app_ai/confirmation.py:192-247 | the second resolver as a whole: execution, edit and clearing in that order, an exception leaving the rest undone |
| `RosterChannel.Channel.TryResolvePendingTurn` | schedjuice-reimagined-be/app_ai/disambiguation.py:105-165 | the third resolver as a whole |
| `RosterChannel.Channel.Resolve` | schedjuice-reimagined-be/app_ai/service.py:133-209 | the three resolvers in sequence on one prompt |
| `RosterChannel.Channel.PressButton` | schedjuice-reimagined-be/app_telegram/callbacks.py:27-97 | a button press executes or drops the row it finds under its key |
| `SessionSafety.ApplyKeepsInv` | schedjuice-reimagined-be/app_auth/refresh_sessions.py:94-280 | every operation keeps tokens distinct and unused, and every live mobile session on an active device of its user |
| `SessionSafety.TokensAcceptedOnceAndDevicesActive` | schedjuice-reimagined-be/app_auth/refresh_sessions.py:166-223 | in any run each token is accepted at most once, and live mobile sessions point to active devices of their user |
| `SessionSafety.DeadStaysDead` | schedjuice-reimagined-be/app_auth/mobile_device_policy.py:60-150 | a revoked session's time and reason never change again, and no expired or revoked session becomes live |
| `SessionSafety.DeadIsLockedOut` | schedjuice-reimagined-be/app_auth/refresh_sessions.py:191-216 | no refresh of such a session is accepted, whatever happens in between |
| `SessionSafety.ReplayLocksOutIffTokenUnexpired` | schedjuice-reimagined-be/app_auth/refresh_sessions.py:166-223 | presenting another token than the current one for a live session locks it out if and only if that token has not itself expired and comes through the session's own tenant |
| `SessionSafety.ExpiredReplayGoesUnnoticed` | schedjuice-reimagined-be/app_auth/refresh_sessions.py:158-190 | a run in which an expired superseded token is replayed and the session stays usable |
| `SessionSafety.PolicyRevokesExactly` | schedjuice-reimagined-be/app_auth/mobile_device_policy.py:60-108 | a mobile login under the policy revokes the user's other live mobile sessions, as rotated or displaced, and nothing else |
| `SessionSafety.PolicyLeavesOne` | schedjuice-reimagined-be/app_auth/mobile_device_policy.py:60-108 | it leaves exactly one live mobile session, the new one |
| `SessionSafety.PolicyTakesHold` | schedjuice-reimagined-be/app_auth/mobile_device_policy.py:60-108 | from any reachable state the policy holds after the user's first mobile login under it |
| `SessionSafety.OneMobileSessionPerUser` | schedjuice-reimagined-be/app_auth/mobile_device_policy.py:60-108 | with the policy on throughout no user ever has two live mobile sessions |
| `SessionEffects.LoginOpensASession` | schedjuice-reimagined-be/app_auth/refresh_sessions.py:94-134 | the new session holds what the login said and a new token that expires with it, seven or ninety days from now; a login from the web touches nothing else |
| `SessionEffects.LoginRegistersTheDevice` | schedjuice-reimagined-be/app_auth/mobile_device_policy.py:33-108 | the device is registered active and keeps the time of an earlier revocation; under the policy exactly the devices of the displaced sessions are deactivated |
| `SessionEffects.LoginUnderThePolicy` | schedjuice-reimagined-be/app_auth/mobile_device_policy.py:60-108 | which of the two reasons each displaced session gets, and that no other session changes |
| `SessionEffects.RefreshIsAcceptedIff` | schedjuice-reimagined-be/app_auth/refresh_sessions.py:166-223 | a refresh is accepted if and only if the session is one of the tenant's, neither revoked nor run out, the token is its current one, and the account is active |
| `SessionEffects.RefusalsSayWhy` | schedjuice-reimagined-be/app_auth/refresh_sessions.py:171-207 | when each of the seven refusals is given |
| `SessionEffects.RefusalsLockOutIff` | schedjuice-reimagined-be/app_auth/refresh_sessions.py:197-207 | reuse and an inactive account revoke the session, which is locked out for good; the other refusals change nothing |
| `SessionEffects.AcceptedRefreshRotates` | schedjuice-reimagined-be/app_auth/refresh_sessions.py:209-223 | an accepted refresh hands out a new token that expires with the session, seven or ninety days from now, and notes when session and device were seen |
| `SessionEffects.NewTokensWork` | schedjuice-reimagined-be/app_auth/refresh_sessions.py:209-216 | the new token is accepted later if and only if less than that time has passed |
| `SessionEffects.FirstTokenWorks` | schedjuice-reimagined-be/app_auth/refresh_sessions.py:94-134 | so is the token of a login |
| `SessionEffects.LogoutNamesOne` | schedjuice-reimagined-be/app_auth/refresh_sessions.py:234-252 | a logout is about the session with the id it carries, else about the one whose unexpired current token it carries, and about one at most |
| `SessionEffects.LogoutLocksOut` | schedjuice-reimagined-be/app_auth/refresh_sessions.py:226-264 | a logout in the session's own tenant revokes it and locks it out; from another tenant it changes nothing |
| `SessionEffects.RevokingAUserLocksOut` | schedjuice-reimagined-be/app_auth/refresh_sessions.py:267-280 | every session of the user in the tenant is locked out and no other session changes |
| `SessionEffects.RevokingDevicesLocksOut` | schedjuice-reimagined-be/app_auth/mobile_device_policy.py:120-181 | every session of a revoked device is locked out, with the reason on those that were live; a stale device is an active one not seen for that many days |
| `SessionStore.Store.CreateRefreshSession` | schedjuice-reimagined-be/app_auth/refresh_sessions.py:94-134 | stores a session under a new token, and applies device registration and policy for a native mobile client |
| `SessionStore.Store.RegisterMobileDevice` | schedjuice-reimagined-be/app_auth/mobile_device_policy.py:33-57 | upserts the device as active, keeping its revocation time |
| `SessionStore.Store.EnforceSingleMobileDevice` | schedjuice-reimagined-be/app_auth/mobile_device_policy.py:60-108 | revokes the other sessions and deactivates the other devices, in a loop |
| `SessionStore.Store.RefreshAuthTokens` | schedjuice-reimagined-be/app_auth/refresh_sessions.py:166-223 | accepts, rejects or revokes in the code's order of checks, rotating the token on success |
| `SessionStore.Store.RevokeRefreshSession` | schedjuice-reimagined-be/app_auth/refresh_sessions.py:226-264 | revokes the session named by id, else by a valid current token, if it belongs to the tenant, and leaves devices alone |
| `SessionStore.Store.RevokeAllForUser` | schedjuice-reimagined-be/app_auth/refresh_sessions.py:267-280 | revokes the user's unrevoked sessions of the tenant and counts them |
| `SessionStore.Store.RevokeMobileDevice` | schedjuice-reimagined-be/app_auth/mobile_device_policy.py:120-150 | deactivates a device and revokes its live sessions |
| `SessionStore.Store.RevokeMobileDevices` | schedjuice-reimagined-be/app_auth/mobile_device_policy.py:153-167 | does so for each of a list and counts |
| `SessionStore.Store.RevokeStaleMobileDevices` | schedjuice-reimagined-be/app_auth/mobile_device_policy.py:170-181 | does so for active devices not seen since the cutoff |
| `ImportRows.FillBlanks` | schedjuice-reimagined-be/app_auth/import_commit.py:237-248 | fills blank or missing keys with non-blank values and says whether any was filled |
| `ImportRows.MergePreparedRows` | schedjuice-reimagined-be/app_auth/import_commit.py:225-254 | the merge loop computes the group's merge |
| `ImportRows.MergeTakesFirstNonBlank` | schedjuice-reimagined-be/app_auth/import_commit.py:225-248 | each field of the merged row is the first non-blank value of its group; only the first row's email counts |
| `ImportRows.MergedCoursesAreDistinctIff` | schedjuice-reimagined-be/app_auth/import_commit.py:233-252 | merged course ids are the first-occurrence union if and only if the first row repeats no id itself |
| `ImportRows.GroupByEmail` | schedjuice-reimagined-be/app_auth/import_commit.py:266-273 | the dictionary holds each email's rows in file order and the list the emails in first-occurrence order |
| `ImportRows.DedupePreparedRows` | schedjuice-reimagined-be/app_auth/import_commit.py:257-287 | the dedupe loop collapses each group by the strategy, in first-occurrence order |
| `ImportRows.DedupeKeepsEmails` | schedjuice-reimagined-be/app_auth/import_commit.py:257-287 | whatever the strategy, the result has one row per lower-cased email, in order, and no email is lost |
| `ImportRows.OrderIsByFirstOccurrence` | schedjuice-reimagined-be/app_auth/import_commit.py:266-273 | an email earlier in the order first occurs earlier in the file |
| `ImportRows.DedupeIsIdempotent` | schedjuice-reimagined-be/app_auth/import_commit.py:257-287 | deduping again, under any strategy, changes nothing |
| `ImportSafety.NothingIsOverwritten` | schedjuice-reimagined-be/app_auth/import_commit.py:335-363 | no stored email and no non-blank field or custom field is ever changed |
| `ImportSafety.OtherUsersUnchanged` | schedjuice-reimagined-be/app_auth/import_commit.py:317-363 | a user no row resolves to is left as it was |
| `ImportSafety.RowsReachTheirUsers` | schedjuice-reimagined-be/app_auth/import_commit.py:317-363 | for rows resolving to distinct users nothing is rolled back, and each row's user is the stored one filled or the new one |
| `ImportSafety.CommitStaysValid` | schedjuice-reimagined-be/app_auth/import_commit.py:290-463 | ids and the unique email index stay consistent for every batch |
| `ImportSafety.OneEventPerEnrolmentIff` | schedjuice-reimagined-be/app_auth/import_commit.py:372-431 | for every batch that goes through, exactly one joined event per new enrolment if and only if no two rows with different emails want one course for one stored user, told from the tables before the import |
| `ImportSafety.DistinctTargetsRecordOnce` | schedjuice-reimagined-be/app_auth/import_commit.py:372-431 | rows resolving to distinct users therefore record each new enrolment once |
| `ImportSafety.ReportCountsExactly` | schedjuice-reimagined-be/app_auth/import_commit.py:446-463 | for every batch that goes through, the report's created number is the ids handed out, and its enrolled number is the new enrolments if and only if no two rows clash in that way, else more |
| `ImportSafety.OneUserTwoEvents` | schedjuice-reimagined-be/app_auth/import_commit.py:374-421 | two rows matched to one user record its one enrolment twice |
| `ImportSafety.EnrolledIff` | schedjuice-reimagined-be/app_auth/import_commit.py:306-391 | a row's user ends up in a listed course unless the row's email belongs to somebody already in it and the user is not |
| `ImportSafety.CommittingAgainDoesNothingIff` | schedjuice-reimagined-be/app_auth/import_commit.py:290-463 | for rows resolving to distinct users, committing them again creates, updates, enrols and records nothing if and only if no row has anything to fill in a new user of this import whose id it names |
| `ImportSafety.FutureMatchBreaksIdempotence` | schedjuice-reimagined-be/app_auth/import_commit.py:299-320 | a batch with such a row, whose second commit fills another user |
| `ImportEffects.StoredUserTakesFirstValues` | schedjuice-reimagined-be/app_auth/import_commit.py:317-355 | for every batch that goes through and every field and custom field of a stored user: a value stays, and a blank takes the first value that a row about the user has, built-in before identity columns |
| `ImportEffects.NewUserHoldsItsRow` | schedjuice-reimagined-be/app_auth/import_commit.py:321-334 | every field and custom field of a new user is what its row says, and a code the row leaves blank is the assigned one |
| `ImportEffects.RolledBackIff` | schedjuice-reimagined-be/app_auth/import_commit.py:313-363 | an import is rolled back, changing nothing, if and only if two rows about nobody stored share an email; it counts as updates the rows that were the first to fill some blank |
| `ImportEffects.EnrolmentsAre` | schedjuice-reimagined-be/app_auth/import_commit.py:365-431 | for every batch the enrolments after it are those before and one for each row that asks for an existing course, for the user its email stands for, and the joined events name exactly the new ones |
| `ImportEffects.ReportedIdsAreNewIff` | schedjuice-reimagined-be/app_auth/import_commit.py:446-463 | the report's ids are those handed out, in order, if and only if no new row shares its email with a row that names a stored user |
| `ImportEffects.SurvivorIs` | schedjuice-reimagined-be/app_auth/import_commit.py:266-287 | which row of an email survives deduping: the only one, the first, the last, or the merge of all in file order |
| `ImportStore.FillUser` | schedjuice-reimagined-be/app_auth/import_commit.py:335-355 | one user's fields and custom data filled, with the changed flag |
| `ImportStore.PlanImport` | schedjuice-reimagined-be/app_auth/import_commit.py:313-355 | the loop over rows plans the creations and the filled users, and lists the changed ones |
| `ImportStore.FindOwners` | schedjuice-reimagined-be/app_auth/import_commit.py:365-371 | the last row matched by id decides whom an email stands for, else the email's holder |
| `ImportStore.CollectEnrolments` | schedjuice-reimagined-be/app_auth/import_commit.py:372-391 | the nested loops collect one pair per wanted email and course, skipping unknown courses and earlier enrolments |
| `ImportStore.Store.EnrolAll` | schedjuice-reimagined-be/app_auth/import_commit.py:392-431 | inserts the pairs, records those that were not there, and counts them |
| `ImportStore.Store.CommitImport` | schedjuice-reimagined-be/app_auth/import_commit.py:290-463 | the whole commit produces the specified tables and report, or rolls back on a repeated new email |
| `Pricing.UsageConservesTokens` | schedjuice-reimagined-be/app_ai/pricing.py:128-144 | the parts sum to the reported totals if and only if cached and reasoning tokens do not exceed them |
| `Pricing.CostIsExact` | schedjuice-reimagined-be/app_ai/pricing.py:26-100 | with the listed rates rounding to 8 places loses nothing |
| `Pricing.CostAddsIffNoOppositeExcess` | schedjuice-reimagined-be/app_ai/pricing.py:89-100 | the cost of two usages adds up if and only if cache writes do not exceed input in one and fall short in the other |
| `Pricing.SavingsAreTheDifferenceIffWritesFit` | schedjuice-reimagined-be/app_ai/pricing.py:115-125 | at markup 1 cache savings are the all-plain cost less the actual cost if and only if cache writes fit in the input |
| `Pricing.MarkupBound` | schedjuice-reimagined-be/app_ai/pricing.py:103-105 | one billed amount is within half a unit of 1e-8 USD of the markup times the cost |
| `Pricing.BillingDrift` | schedjuice-reimagined-be/app_ai/pricing.py:103-105 | over n calls billed and due amounts differ by at most n half-units |
| `Pricing.MarginalPrices` | schedjuice-reimagined-be/app_ai/pricing.py:26-100 | what one more token of each kind costs under each model name, and that no tokens cost nothing |
| `Pricing.BillingRoundsToEven` | schedjuice-reimagined-be/app_ai/pricing.py:103-105 | a billed amount is the nearest unit to the markup, the even one of two equally near |
| `Pricing.SavingsAreMarkedUp` | schedjuice-reimagined-be/app_ai/pricing.py:115-125 | with a markup the savings shown are the marked-up savings to half a unit |
| `Pricing.ResponseIsSplit` | schedjuice-reimagined-be/app_ai/pricing.py:128-144 | cached tokens are taken out of the input and reasoning out of the output, neither below zero |
| `UsageLedger.Ledger.RecordUsage` | schedjuice-reimagined-be/app_ai/usage.py:29-132 | appends one log row and adds it to one tenant row and, with a user, one user row, so that all tables reflect the calls made |
| `UsageLedger.Ledger.AddToTenantRollup` | schedjuice-reimagined-be/app_ai/usage.py:75-103 | the tenant's row of month and model grows by the call and every other row stays |
| `UsageLedger.Ledger.AddToUserRollup` | schedjuice-reimagined-be/app_ai/usage.py:105-132 | the user's row of the month grows by the call and every other row stays |
| `UsageLedger.Ledger.CurrentMonthUsage` | schedjuice-reimagined-be/app_ai/quota.py:62-72 | the tenant's rows over all models sum to the billed amount and tokens of the month's calls |
| `UsageLedger.Ledger.UserUsageForMonth` | schedjuice-reimagined-be/app_ai/quota.py:121-134 | reading the log gives the user's calls stamped within the month's bounds |
| `UsageLedger.BoundsAreTheMonth` | schedjuice-reimagined-be/app_ai/reporting.py:155-161 | the UTC bounds select exactly the instants of the month, December included |
| `UsageLedger.BeforeFollowsTime` | schedjuice-reimagined-be/app_ai/reporting.py:155-161 | instants compare by month and then by their place in it |
| `UsageLedger.ListsAgreeIff` | schedjuice-reimagined-be/app_ai/reporting.py:192-242 | for every month the lists of users from the log and from the rollup have the same rows with the same measures if and only if no call's log row is stamped in another month than its rollup and no call lacks a user |
| `UsageLedger.TenantMonthsAgreeIff` | schedjuice-reimagined-be/app_ai/reporting.py:155-210 | a tenant's months by its rollup rows and by its log rows agree if and only if no call, with or without a user, is stamped in another month than its rollup |
| `UsageLedger.MonthlyCostIsCostOfTokensIff` | schedjuice-reimagined-be/app_ai/usage.py:48-103 | the cost in a model's monthly row is the cost of its summed tokens if and only if no two of its calls have opposite excesses of cache writes over input |
| `UsageLedger.MonthlyBillingDrift` | schedjuice-reimagined-be/app_ai/usage.py:48-103 | the billed amount of a monthly row is within half a unit a request of the markup on its cost |
| `ToolLoop.HandleCall` | schedjuice-reimagined-be/app_ai/client.py:436-551 | one call: bad JSON, not allowed, unknown, withheld, invalid, failed, refused or done, each with its entry and output |
| `ToolLoop.GenerateWithTools` | schedjuice-reimagined-be/app_ai/client.py:424-563 | the request loop computes transcript, log, tool runs, usage rows and outcome as specified, for any model and tools |
| `ToolLoop.ListToolsForTurn` | schedjuice-reimagined-be/app_ai/tools/registry.py:77-93 | the selected tools are those allowed by feature and always available, reading, or writing on a write turn |
| `ToolLoop.SelectTools` | schedjuice-reimagined-be/app_ai/service.py:44-54 | an explicit list, else the organization's selection, else every registered tool |
| `ToolLoop.WriteToolBlocked` | schedjuice-reimagined-be/app_ai/service.py:36-41 | says whether an entry carries the read-turn guard's text |
| `ToolLoop.RunModel` | schedjuice-reimagined-be/app_ai/service.py:262-314 | one pass, and a second one on a read turn whose log has such an entry |
| `ToolLoopSafety.EveryRequestIsWellFormed` | schedjuice-reimagined-be/app_ai/client.py:424-563 | at every request each earlier call has exactly one output with its call id, in order, by an independent reading of the transcript |
| `ToolLoopSafety.TheLoopStops` | schedjuice-reimagined-be/app_ai/client.py:424-621 | at most the limit of requests, each extending the last; the outcome says what the model answered last |
| `ToolLoopSafety.TheLogReplaysTheTranscript` | schedjuice-reimagined-be/app_ai/client.py:436-551 | log, outputs and tool runs are those of handling all calls one after the other: one entry and one output per call |
| `ToolLoopSafety.OnlyAdmittedToolsRun` | schedjuice-reimagined-be/app_ai/client.py:475-525 | only allowed and registered tools run, and on a read turn no write tool that is not always available |
| `ToolLoopSafety.FastPathRunsNothing` | schedjuice-reimagined-be/app_ai/service.py:234-252 | the pass that follows a resolver's action allows no tool, so the model runs none in that turn |
| `ToolLoopSafety.UsageRowsHoldTheLogIff` | schedjuice-reimagined-be/app_ai/client.py:551-610 | tokens are the sum of the rows; a loop that runs out of rounds has stored its whole log if and only if no response made two calls |
| `ToolLoopSafety.RetriesIff` | schedjuice-reimagined-be/app_ai/service.py:286-312 | a read turn is retried if and only if its first pass ended and one of its calls was withheld or failed with the guard's very text |
| `ToolLoopSafety.OrgSelectionNeverHoldsBack` | schedjuice-reimagined-be/app_ai/tools/registry.py:77-93 | with the organization's own selection the read-turn guard never sees a tool it would withhold |
| `ToolLoopSafety.OrgRetriesOnlyOnAnEcho` | schedjuice-reimagined-be/app_ai/service.py:268-312 | so there the retry happens only when a tool's own error repeats the guard's text |
| `ToolLoopSafety.PassesRunOnlyTheirTools` | schedjuice-reimagined-be/app_ai/service.py:268-312 | both passes run only what their intent allows, and the second keeps what the first ran |
| `ToolLoopEffects.EveryCallIsAnswered` | schedjuice-reimagined-be/app_ai/client.py:436-551 | over a whole pass the k-th call has the k-th log entry and the k-th answer: the tool's own text on success or refusal, its message on a lookup or validation error, a fixed text on any other exception, and for a call turned away that case's own text |
| `ToolLoopEffects.ResponseIsRead` | schedjuice-reimagined-be/app_ai/client.py:430-436 | the calls of a response are its function calls and its text its messages, in order |
| `ToolLoopEffects.RequestsAre` | schedjuice-reimagined-be/app_ai/client.py:414-621 | the first request is what was given, each later one the one before with the response and one answer for each of its calls; at most as many as the limit, and the text when they run out |
| `ToolLoopEffects.EveryRequestIsBooked` | schedjuice-reimagined-be/app_ai/client.py:551-610 | each request has its own usage row, in order, with its number, whether the model answered, and its tokens |
| `ToolLoopEffects.OfferedNamesAre` | schedjuice-reimagined-be/app_ai/tools/registry.py:77-93 | an organization offers on a write turn the tools whose feature it has or that need none, and on a read turn those of them that only read or are always available |
| `ToolLoopEffects.ExplicitToolsWin` | schedjuice-reimagined-be/app_ai/service.py:44-54 | an explicit list goes before the organization's, and without either every registered tool is offered |
| `ToolLoopEffects.TheRetryStartsOver` | schedjuice-reimagined-be/app_ai/service.py:286-312 | the retry starts from the extended context with a write intent and the tools of a write turn, and answers its calls accordingly |
| `LeaveRequests.FindOverlap` | schedjuice-reimagined-be/app_attendance/leave_request_validation.py:48-63 | the newest pending or approved request of the student that shares a day, other than the excluded one, or none |
| `LeaveRequests.CoveringLeave` | schedjuice-reimagined-be/app_attendance/leave_request_approval.py:124-135 | the approved leave covering the day that was reviewed last, by id on a tie, or none if there is none |
| `LeaveSafety.StepStaysTidy` | schedjuice-reimagined-be/app_attendance/leave_request_views.py:161-257 | every operation keeps requests well formed and pending and approved ones of a student pairwise disjoint |
| `LeaveSafety.OneLeaveCoversADay` | schedjuice-reimagined-be/app_attendance/leave_request_validation.py:30-63 | in every run at most one approved leave covers a day, and the lookup finds it |
| `LeaveSafety.ReviewedIsFinal` | schedjuice-reimagined-be/app_attendance/leave_request_approval.py:45-48 | a request that was approved, denied or cancelled never changes again |
| `LeaveSafety.WindowLosesNothing` | schedjuice-reimagined-be/app_attendance/leave_request_approval.py:57-76 | the wider window of instants hides no event of the local day |
| `LeaveSafety.EveryUntouchedRowShowsItsLeave` | schedjuice-reimagined-be/app_attendance/leave_request_approval.py:99-138 | in every run a row nobody marked since is absent with leave exactly when an approved leave covers its day, else unregistered |
| `LeaveSafety.RosterAndApprovalCommute` | schedjuice-reimagined-be/app_attendance/marking_services.py:77-99 | approving then building the roster and building it then approving give the same rows, statuses and notes |
| `LeaveSafety.ProtectedSurvives` | schedjuice-reimagined-be/app_attendance/leave_request_approval.py:79-96 | present and late, with their note, survive every run in which staff do not mark the row again |
| `LeaveSafety.ApplyingAgainChangesNothing` | schedjuice-reimagined-be/app_attendance/leave_request_approval.py:34-42 | applying a leave again changes neither status nor note |
| `LeaveSafety.RosterKeepsTheMarkIff` | schedjuice-reimagined-be/app_attendance/marking_services.py:77-99 | building the roster keeps a staff mark unless the student has another role, a leave covers the day and the mark is neither attended nor leave |
| `LeaveSafety.ApprovalRaisesIff` | schedjuice-reimagined-be/app_attendance/leave_request_approval.py:99-112 | approval fails, changing nothing, if and only if a soft-deleted row exists for a covered event of an enrolled course |
| `LeaveSafety.NoteNamesTheLeaveIff` | schedjuice-reimagined-be/app_attendance/leave_request_approval.py:30-42 | the note names the leave on its own line unless the old note held that text inside another line |
| `LeaveSafety.LongerIdHidesShorterOne` | schedjuice-reimagined-be/app_attendance/leave_request_approval.py:40-42 | leave 1 leaves no trace in a note that names leave 12 |
| `LeaveEffects.SubmitWrites` | schedjuice-reimagined-be/app_attendance/leave_request_views.py:161-184 | when each answer is given, a leave that starts today included, which overlap is named, and that a leave without an end is stored as pending and one day long |
| `LeaveEffects.EditWrites` | schedjuice-reimagined-be/app_attendance/leave_request_views.py:207-238 | the same for an edit, which compares with every other request and changes only what was sent |
| `LeaveEffects.CancelWrites` | schedjuice-reimagined-be/app_attendance/leave_request_views.py:241-257 | cancelling marks one's own pending request as cancelled and changes nothing else |
| `LeaveEffects.DenyWrites` | schedjuice-reimagined-be/app_attendance/leave_request_approval.py:162-186 | denying records reason and time on a pending request and changes nothing else |
| `LeaveEffects.DigitsReadBack` | schedjuice-reimagined-be/app_attendance/leave_request_approval.py:30-31 | the id in a note is the leave's id in decimal digits without leading zeros |
| `LeaveEffects.ApproveWrites` | schedjuice-reimagined-be/app_attendance/leave_request_approval.py:99-159 | for every row: whether it exists after an approval, whether it was excused and what its note says, and when the approval fails |
| `LeaveEffects.RosterWrites` | schedjuice-reimagined-be/app_attendance/marking_services.py:56-104 | for every row: whether the roster makes it, excuses it by the covering leave, or leaves it |
| `LeaveEffects.StaffWrites` | schedjuice-reimagined-be/app_attendance/views.py:358-365 | a staff mark replaces status and note of a live row and nothing else |
| `LeaveDesk.Desk.Submit` | schedjuice-reimagined-be/app_attendance/leave_request_views.py:161-184 | creates a pending request after the date and overlap checks |
| `LeaveDesk.Desk.EditRequest` | schedjuice-reimagined-be/app_attendance/leave_request_views.py:207-238 | edits one's own pending request field by field, checking the resulting dates against the others |
| `LeaveDesk.Desk.CancelRequest` | schedjuice-reimagined-be/app_attendance/leave_request_views.py:241-257 | cancels one's own pending request |
| `LeaveDesk.Desk.DenyRequest` | schedjuice-reimagined-be/app_attendance/leave_request_approval.py:162-186 | denies a pending request with a reason |
| `LeaveDesk.Desk.MarkAbsentForLeave` | schedjuice-reimagined-be/app_attendance/leave_request_approval.py:79-96 | excuses a row that is neither present nor late and says whether it did |
| `LeaveDesk.Desk.ApplyApprovedLeave` | schedjuice-reimagined-be/app_attendance/leave_request_approval.py:99-112 | day by day and event by event, excuses or creates the rows of the student's courses, counts the changed ones, raises on a soft-deleted row |
| `LeaveDesk.Desk.ApproveRequest` | schedjuice-reimagined-be/app_attendance/leave_request_approval.py:141-159 | approves and applies in one transaction, restoring everything when applying raises |
| `LeaveDesk.Desk.MaybeApplyApprovedLeave` | schedjuice-reimagined-be/app_attendance/leave_request_approval.py:115-138 | excuses one live row by the covering leave, if any |
| `LeaveDesk.Desk.BuildMarkingRoster` | schedjuice-reimagined-be/app_attendance/marking_services.py:56-104 | creates the missing rows, skipping taken keys, and looks at the missing students' live rows once more for leave |
| `CheckIn.StartsBeforeItEnds` | schedjuice-reimagined-be/app_attendance/views.py:109-117 | a session starts before it ends, also across midnight |
| `CheckInSafety.SelectedIsFirstNotEnded` | schedjuice-reimagined-be/app_attendance/checkin_policy.py:53-86 | everything before the chosen session has ended, and the chosen one only if all have |
| `CheckInSafety.ChoiceMissesAnOpenWindowIff` | schedjuice-reimagined-be/app_attendance/checkin_policy.py:25-86 | for candidates in any order, check-in is refused although a candidate's window is open if and only if an open one is listed after one that is too early, everything before which has ended |
| `CheckInSafety.ChoiceFindsAnOpenWindowIff` | schedjuice-reimagined-be/app_attendance/checkin_policy.py:25-86 | so for candidates in starting order, check-in is open for the chosen one if and only if it is open for any |
| `CheckInSafety.ResolvedCheckoutIsNearest` | schedjuice-reimagined-be/app_attendance/checkin_policy.py:141-154 | the check-out is the proposed time moved to the nearest instant between check-in and session end, once and for all |
| `CheckInSafety.GraceAgreesIff` | schedjuice-reimagined-be/app_attendance/self_correction.py:163 | live check-in and correction open at the same instant if and only if the grace is not zero |
| `CheckInSafety.ApplyKeepsInv` | schedjuice-reimagined-be/app_attendance/views.py:677-869 | every operation keeps the row invariant |
| `CheckInSafety.EveryRowIsOk` | schedjuice-reimagined-be/app_attendance/self_correction.py:124-273 | in every run: check-in <= check-out <= max(check-in, end), no check-in before the window or on a deleted row, and a checked-in teacher has the session's bounds frozen, start before end |
| `CheckInSafety.OnlyCancellingUnfreezes` | schedjuice-reimagined-be/app_attendance/cancel_checkin.py:136-149 | frozen bounds of a row change only when its check-in is cancelled |
| `CheckInSafety.LiveAndBackfillFreezeAlikeIff` | schedjuice-reimagined-be/app_attendance/payroll_snapshots.py:70-113 | a first live check-in and a first backfill freeze the same columns if and only if the bonus is not zero |
| `CheckInSafety.CancelUndoesCheckIn` | schedjuice-reimagined-be/app_attendance/cancel_checkin.py:95-149 | cancelling after checking a new row in gives back the row as it was |
| `CheckInSafety.CheckInNeverMeetsACheckout` | schedjuice-reimagined-be/app_attendance/views.py:700-737 | a check-in never lands on a row that kept a check-out |
| `CheckInEffects.BoundsOnTheLocalClock` | schedjuice-reimagined-be/app_attendance/payroll_snapshots.py:49-60 | a session starts on its local date when the local clock shows its start, and ends the next time it shows its end |
| `CheckInEffects.CheckInAnswersIff` | schedjuice-reimagined-be/app_attendance/views.py:689-765 | when each answer is given, told from the first waiting row whose session is not over |
| `CheckInEffects.CheckInWrites` | schedjuice-reimagined-be/app_attendance/views.py:766-804 | a successful check-in records the present instant, the picture and the extra-class flag in that row alone and freezes exactly these payroll columns; any other answer changes nothing |
| `CheckInEffects.CheckOutWrites` | schedjuice-reimagined-be/app_attendance/views.py:825-869 | the first running row gets the present instant, or the session's end if that is over, but never before its check-in, and the notes that were sent |
| `CheckInEffects.CancelWrites` | schedjuice-reimagined-be/app_attendance/cancel_checkin.py:71-152 | when each answer is given, and that cancelling clears these columns, keeps the old values on record and changes nothing else |
| `CheckInEffects.CorrectionAnswers` | schedjuice-reimagined-be/app_attendance/self_correction.py:124-238 | when each answer to a correction is given, in the order of the checks, and that only one that is made changes anything |
| `CheckInEffects.CorrectionWrites` | schedjuice-reimagined-be/app_attendance/self_correction.py:209-273 | every column a correction leaves, and the record of it: its kind and each change once |
| `CheckInEffects.RowsComeAndGo` | schedjuice-reimagined-be/app_attendance/userevent_lifecycle.py:9-44 | deleting, restoring and adding touch exactly these rows |
| `CheckInDesk.SelectNextCheckin` | schedjuice-reimagined-be/app_attendance/checkin_policy.py:53-86 | the tracking loop finds the first session not ended, else the last, else none |
| `CheckInDesk.ResolveCheckoutTime` | schedjuice-reimagined-be/app_attendance/checkin_policy.py:141-154 | the reassigned local ends as the specified time |
| `CheckInDesk.FreezeTeacherSnapshots` | schedjuice-reimagined-be/app_attendance/payroll_snapshots.py:70-113 | bounds once, then rate, bonus, students and price unless payroll is by session; a missing rate is reported |
| `CheckInDesk.ListChanges` | schedjuice-reimagined-be/app_attendance/self_correction.py:175-209 | the change list names exactly the fields that change, with old and new values, and any new image |
| `CheckInDesk.JudgeCorrection` | schedjuice-reimagined-be/app_attendance/self_correction.py:139-221 | the checks of a correction in their order, and the times it would write |
| `CheckInDesk.Desk.CheckIn` | schedjuice-reimagined-be/app_attendance/views.py:677-804 | checks the chosen session in, freezing payroll columns for a teacher, or says why not |
| `CheckInDesk.Desk.CheckOut` | schedjuice-reimagined-be/app_attendance/views.py:806-869 | checks the first open session out at the resolved time |
| `CheckInDesk.Desk.CancelOpenCheckin` | schedjuice-reimagined-be/app_attendance/cancel_checkin.py:71-152 | clears an open check-in and its payroll columns and records it |
| `CheckInDesk.Desk.SelfCorrect` | schedjuice-reimagined-be/app_attendance/self_correction.py:124-283 | writes the corrected times, backfilling payroll columns on a first check-in, and records the changes |
| `CheckInDesk.Desk.SoftDeleteRows` | schedjuice-reimagined-be/app_attendance/userevent_lifecycle.py:9-14 | soft-deletes the live rows without a check-in and counts them |
| `CheckInDesk.Desk.RestoreForPairs` | schedjuice-reimagined-be/app_attendance/userevent_lifecycle.py:29-44 | the loop over the cross product restores exactly the deleted rows of the given pairs and counts them |

## Left out

- HTTP views, serializers, permissions, URL routing and notifications, apart from the transitions listed above; checks on the acting user arrive as a parameter.
- What the tools, the prompt parsers, the language model and `execute_roster_action` do: arbitrary in every theorem. An execution that raises counts as none, also if it had written something before.
- The edits of a message after a button was pressed: they follow the clearing and touch no row.
- Locks and races inside one request, and requests that interleave.
- Named time zones and daylight saving: the offset of a tenant is fixed.
- JWT encoding and signatures: a token is a fresh number with an expiry.
- Float percentages, rates, the counts of pairs past a rate threshold and page sorting of the attendance reports, and the daily and monthly absence lists.
- The stalled-after-marking filter and the alternative god-view sorts: filters over rows that are modelled.
- Bulk and admin edits of attendance rows (`app_attendance/views.py:358-365`), and the student check-in that creates rows: they apply no leave and bypass the check-in rules.
- Leaving a course: rows of a course the student has left are not visited by an approval, and rows restored on joining again are not looked at for leave.
- Rescheduling or deleting an event after rows refer to it: coverage by leave and the cap of a check-out go by the event's present time.
- Prompt-cache keys, thinking steps and latency of the tool loop, and the text of prompts and messages.
- Request logs, guardrails, quota checks and spend alerts around the tool loop.
- Validation of import rows before deduping, profile completeness and the counters behind user codes: prepared rows and new codes are given.
- ImportStore.Store.CommitImport: requires that no user is found both by a matched id and by another row's email, because the code then fills two separately loaded copies and what the bulk update keeps of either is decided inside the ORM; a loaded user is one copy here.
- ImportSafety.RowsReachTheirUsers: speaks of rows that resolve to distinct users, as merging drops the matched id and two rows of one user fill it in turn.
- ToolLoop.HandleCall: leaves out that clamping or encoding an output could raise, and takes the clamp as any function.
