# What the CRM backend promises, in Dafny

A model of the parts of the repository whose correctness is not visible in any single function, with
proofs about it. Three protocols live in the database and survive any interleaving of requests
because of conditional writes; a browser tab talks to one of them; a backup is restored under
foreign keys; ledgers depend on a moving clock; and money, percentages and dates travel as text.
`dafny verify dfyconfig.toml` checks everything.

## How the model is laid out

| files | what they model |
|---|---|
| `RefreshTokens`, `RefreshTokenSafety`, `RefreshTokenCalls` | refresh-token families: login, rotation, reuse, logout, disabling, mass revocation |
| `BrowserSession`, `BrowserTab` | one tab's single-flight refresh in front of that server, answers may be lost |
| `EmailCodes`, `EmailCodeSafety`, `EmailCodeCalls`, `EmailCodeLimit` | one-time email codes, the step-up interceptor, the sending limit |
| `Confirmations`, `ConfirmationSafety`, `ConfirmationCalls` | maker-checker actions: claim, execute, downgrade, reject, expire, list |
| `BackupCells`, `Backup`, `BackupRestore`, `BackupService` | snapshot encoding, restore order, two-pass restore, exactness |
| `Attendance`, `AttendanceRuns`, `AttendanceCalls` | shifts, days off and the missed-shift job over a moving clock |
| `Accounting`, `AccountingReports`, `AccountingCalls` | transactions, closed months, summaries and daily reports |
| `Payroll`, `PayrollRaces`, `PayrollCalls` | payroll arithmetic, whole calls, and the same calls taken apart |
| `Sales`, `SalesCalls`, `ContractTerms` | lead to booking to contract, and the money of a contract |
| `Digits`, `Money`, `FrontendMoney` | decimal text, fixed-point money on the server and in the forms |
| `CivilDays`, `BusinessCalendar` | day numbers, ISO dates, working days, zoned instants, months |

Every protocol is a state, a list of events and a total `Step`: an event is one database statement (a
`$transaction` is one statement that may roll back), an event nobody is about to execute changes
nothing, and `Run` folds a list of events. Each call of a service is therefore cut at every point where
another request can get in between, and theorems about `Run` hold for every interleaving. Where the code is only
right when calls do not overlap - attendance, the book, payroll formulas - an event is a whole call, and
`PayrollRaces` shows what is left when they do overlap. Some states carry history the database does not
keep (who created a row, who won a claim); no branch looks at it.

Beside each machine stands a class with the source's tables, or the tab's module variables, as fields. Its
methods are the service's methods, branch by branch and loop by loop. In the classes of the protocols, of the tab and of
`Sales` a call is cut at its awaits, what happens elsewhere meanwhile comes in as `env`, and the whole call
is proved to be a run of the machine; in the others a call is proved to be one step. So the theorems apply to both.

## Findings

Properties that the code or its comments suggest but that fail; each is proved with its exact condition.

- A restore does not bring back every row. The second pass writes users by `update`, and the client then
  stamps `updatedAt` itself; and a JSON document that is the JSON null, or an object with the one key `$bigint`,
  `$date` or `$decimal`, is read back as something else (`BackupRestore.RestoreIsExactIff`).
- "A new code supersedes older unused codes" does not reach a step-up code whose handler is still running: given back
  after a 4xx it is usable again (`EmailCodeSafety.SupersededIffNotOut`). Login and email-change codes are never given back
  (`EmailCodeSafety.LoginCodesWorkOnce`).
- The email-code answer "locked" after ten lost swaps is right exactly for limits up to ten
  (`EmailCodeSafety.LockAnswerIffTenAttempts`), and `CONFIRMATION_CONCURRENT_UPDATE` can be answered exactly for limits from ten on
  (`ConfirmationSafety.ConcurrentUpdateIffTenAttempts`).
- A confirmed action can be overwritten by `rejected` or `expired`, exactly while a call that saw it pending is
  still on its way (`ConfirmationSafety.ConfirmedIsLostIffStaleWriter`, `ConfirmationSafety.ConfirmedStays`); its effect still runs at most once.
- Payroll formulas can break when calls overlap. The late write of an edit breaks them exactly if the row now asks for another
  tax or fine (`PayrollRaces.StaleAdjustmentHarmlessIff`); the late write of a generate is refused if the salary has
  changed, and else breaks them exactly if it carries a fine set by hand that is no longer marked as such and is not the
  computed one (`PayrollRaces.StaleRefreshHarmlessIff`, with the run `PayrollRaces.LateGenerateBreaksTheFine`). If only
  the two statements of every edit stay together, all formulas hold in every interleaving
  (`PayrollRaces.OnlyUpdatesMustBeWhole`), although a fine set by hand can still be overwritten
  (`PayrollRaces.LateGenerateLosesAManualFine`).
- A converted booking is put back to active exactly by an edit loaded before the conversion (`Sales.ContractedIsLostIff`), and
  only then does the unique key of contracts have anything to prevent (`Sales.KeyIsNotNeeded`, `Sales.StaleEditNeedsTheKey`).
  A booking that came from a lead cannot be deleted, since setting the lead's reference to null breaks a CHECK
  constraint (`Sales.DeletedIffNotFromALead`).
- The comment above the accounting service lets a director delete transactions; the code lets only their accountant, and the model follows the code.
- `periodRange` reads the years 0 to 99 as 1900 to 1999 (`BusinessCalendar.PeriodAgrees`).

## Model

| member | source | states |
|---|---|---|
| RefreshTokens.RunKeeps | src/auth/refresh-token.service.ts:46-176 | The invariant behind the rotation theorems is kept by every interleaving of login, rotate, logout, disable and mass revocation, with statements failing at any point |
| RefreshTokenSafety.AtMostOneLiveToken | src/auth/refresh-token.service.ts:105-138 | Of the tokens of a family that a client may hold at most one is unrevoked; with no call in flight, at most one token at all |
| RefreshTokenSafety.LinksAreInjective | src/auth/refresh-token.service.ts:114-117 | replacedByTokenId stays in the family, leaves only revoked tokens, and never leads from two tokens to one |
| RefreshTokenSafety.ChainIsAcyclic | src/auth/refresh-token.service.ts:114-117 | Following replacedByTokenId never comes back |
| RefreshTokenSafety.ChainIsLinear | src/auth/refresh-token.service.ts:72-138 | Every token a client may hold is reached by those links from the login token of its family |
| RefreshTokenSafety.RevocationKills | src/auth/refresh-token.service.ts:155-175 | A revocation statement leaves every token of each family it touches revoked |
| RefreshTokenSafety.DeathIsPermanent | src/auth/refresh-token.service.ts:105-124 | A dead family stays dead in every later run: no claim on it wins, no further token of it reaches a client, and when all calls have ended all its tokens, those issued later by late rotates included, are revoked |
| RefreshTokenSafety.LoserCoversWinner | src/auth/refresh-token.service.ts:107-121 | When a claim loses, the winner's successor already exists, and whenever the loser's revocation runs it leaves that successor revoked |
| RefreshTokenSafety.DoublePresentationBurns | src/auth/refresh-token.service.ts:86-90 | Of two finished rotations of one secret that were not refused as unknown or expired at most one succeeded, and the family is dead |
| RefreshTokenCalls.RefreshTokenService.Refresh | src/auth/auth.service.ts:154-172 | Among any other calls refresh is a run of the machine and each answer means what it says: success only behind a won claim and for an account that was not disabled before, reuse or a disabled account only over a dead family. With nobody else about, an unrevoked and unexpired secret gets the new token exactly if its owner is not disabled, and the rows change in nothing but the rotation |
| RefreshTokenCalls.RefreshTokenService.ClaimPresented | src/auth/refresh-token.service.ts:113-124 | The conditional update revokes and links the row exactly if it was unrevoked, and otherwise leads to handleReuse |
| RefreshTokenCalls.RefreshTokenService.Login | src/auth/refresh-token.service.ts:46-62 | A login adds one row, unrevoked and handed out; it is the only token of its family |
| RefreshTokenCalls.RefreshTokenService.Logout | src/auth/refresh-token.service.ts:162-168 | After logout with a known secret its family is dead, whatever ran meanwhile; an unknown secret changes nothing, and undisturbed the call revokes the unrevoked rows of that family and no other |
| RefreshTokenCalls.RefreshTokenService.DisableUser | src/users/users.service.ts:249-262 | Disabling, status first and sessions second, leaves every token of the user revoked, and undisturbed no other row changed |
| RefreshTokenCalls.RefreshTokenService.RevokeAllForUser | src/users/users.service.ts:412-418 | A mass revocation revokes every token of the user, leaves every other row and keeps the invariant |
| BrowserSession.LoginStartsASession | frontend/src/features/auth/session.ts:323-335 | A login with no revocation of the user under way leads to the state the tab's theorems start from |
| BrowserSession.OneTabNeverLooksLikeTheft | frontend/src/features/auth/session.ts:75-118 | However many requests get 401 at once and whichever answers are lost: at most one /auth/refresh per access token, no request sent more than twice, and the server never treats the tab's cookie as reused |
| BrowserSession.CookieStaysGood | frontend/src/features/auth/session.ts:77-97 | While the tab can refresh and no refresh is in flight, its cookie is the family's live token and its latest |
| BrowserSession.LostAnswerEndsTheSession | frontend/src/features/auth/session.ts:77-97 | A refresh that fails or whose answer is lost is the last one: nothing in any later run sends another, and no token is left |
| BrowserTab.SessionModule.AuthorizedRequest | frontend/src/features/auth/session.ts:134-191 | Among any other events a request is a run of the machine, goes out twice only with a changed token or after a refresh that succeeded, signs the tab out only after one that failed, and never looks like theft |
| BrowserTab.SessionModule.RefreshSession | frontend/src/features/auth/session.ts:104-118 | A request goes out exactly if there is no promise and a csrf token, and afterwards there is a promise |
| BrowserTab.SessionModule.Handle401 | frontend/src/features/auth/session.ts:161-191 | After a 401 the request is repeated at once exactly if the access token has changed meanwhile, otherwise it shares the refresh |
| BrowserTab.SessionModule.OnRefreshed | frontend/src/features/auth/session.ts:84-90 | After an answered refresh the tab holds an access token it has never refreshed with, and its cookie is the live and latest token of the family |
| BrowserTab.SessionModule.OnRefreshFailed | frontend/src/features/auth/session.ts:91-96 | After a failed one it holds no token, and no later run sends another refresh |
| EmailCodeSafety.OneClaimPerCode | src/email-codes/email-codes.service.ts:194-217 | A code has at most one outstanding claim, and over the whole run at most one handler behind it does not give it back, so at most one ends in anything but a 4xx |
| EmailCodeSafety.ConsumedForGood | src/email-codes/email-code.interceptor.ts:53-69 | After a handler that did not give its code back no claim on it ever wins again |
| EmailCodeSafety.LoginCodesWorkOnce | src/auth/auth.service.ts:74-76 | A login or email-change code is claimed once in its life, whatever becomes of the call |
| EmailCodeSafety.ReleaseUndoesItsOwnClaim | src/email-codes/email-codes.service.ts:224-230 | release clears exactly the claim its own call wrote, no other code changes, and nobody holds the code afterwards |
| EmailCodeSafety.NoGuessIsLost | src/email-codes/email-codes.service.ts:232-244 | attempts is the number of calls whose wrong guess was answered as counted |
| EmailCodeSafety.CodesGoForward | src/email-codes/email-codes.service.ts:232-244 | In every run attempts only grow, an invalidation stays, and secret, limit and expiry never change |
| EmailCodeSafety.LockedForGood | src/email-codes/email-codes.service.ts:178-203 | Once attempts reach the limit no claim on the code ever wins |
| EmailCodeSafety.LockAnswerIffTenAttempts | src/email-codes/email-codes.service.ts:232-244 | Whoever is told "locked" is told the truth in every run if and only if the limit is at most ten |
| EmailCodeSafety.SupersededIffNotOut | src/email-codes/email-codes.service.ts:100-105 | A newer code ends an older one for good if and only if the older one is not a step-up code out with a handler |
| EmailCodeSafety.ClaimedCodeWasIssuedForIt | src/email-codes/email-codes.service.ts:161-217 | In every run the code a call claims was issued for its purpose, user, action and resource, and its guess was the right one |
| EmailCodeSafety.SupersedesExactly | src/email-codes/email-codes.service.ts:100-105 | A newer code invalidates exactly the unused codes of the same user, purpose and action |
| EmailCodeCalls.EmailCodesService.Consume | src/email-codes/email-codes.service.ts:161-217 | Among any other calls the answer is a mismatch exactly if the code is not there or was not issued for this purpose, user, action and resource; then used, expired or locked as the row says; then a right guess holds the claim exactly if at the claim the code is unused, not superseded, unlocked and in time. With nobody else about, what the guess does to the table is exact |
| EmailCodeCalls.EmailCodesService.RecordFailedAttempt | src/email-codes/email-codes.service.ts:232-244 | "not locked" is answered only when this guess was counted and was not the last; "locked" only for the last guess, ten guesses of others, or a deleted row; an undisturbed first swap counts one attempt and ends the loop |
| EmailCodeCalls.EmailCodesService.AfterHandler | src/email-codes/email-code.interceptor.ts:63-69 | A step-up code is given back after a 4xx and only then, and then it is unconsumed again with nothing else changed; other codes never are |
| EmailCodeLimit.WindowHolds | src/email-codes/email-codes.service.ts:87-98 | If any max + 1 codes in a row span more than 15 minutes, no closed 15-minute window, wherever it starts, holds more than max |
| EmailCodeLimit.EmailCodeIssuer.Issue | src/email-codes/email-codes.service.ts:87-142 | A code is refused exactly if as many as the limit were created in the last 15 minutes, and calls one after another keep every closed window within the limit; an undelivered code leaves no trace unless its deletion fails as well, and then it counts |
| ConfirmationSafety.EffectRunsAtMostOnce | src/confirmations/confirmations.service.ts:227-252 | An action's effect runs for at most one call over the whole run, one that gave the right code and claimed before expiry, whatever reject and expiry overwrite |
| ConfirmationSafety.HistoryStays | src/confirmations/confirmations.service.ts:233-252 | Answers and claims are never rewritten, so at most once is over whole runs |
| ConfirmationSafety.ConfirmedWasClaimed | src/confirmations/confirmations.service.ts:232-239 | A confirmed action was claimed with its code, in time, by the director it names |
| ConfirmationSafety.PendingNeverReentered | src/confirmations/confirmations.service.ts:309-349 | A resolved action is never pending again, and its secret, limit and expiry never change |
| ConfirmationSafety.PendingHasAGuessLeft | src/confirmations/confirmations.service.ts:292-307 | attempts counts the wrong guesses, and a pending action has one left |
| ConfirmationSafety.DowngradeUndoesOwnClaim | src/confirmations/confirmations.service.ts:254-259 | The downgrade after a failed execution can only touch the claim of its own call |
| ConfirmationSafety.ConfirmedIsLostIffStaleWriter | src/confirmations/confirmations.service.ts:309-349 | confirmed can be overwritten by another status if and only if a reject, expiry or listing that saw the action pending is still on its way |
| ConfirmationSafety.ConfirmedStays | src/confirmations/confirmations.service.ts:232-259 | With no such writer on its way a confirmed action stays confirmed in every later run, unless its own execution fails |
| ConfirmationSafety.ExecutedCanEndRejected | src/confirmations/confirmations.service.ts:309-322 | A run in which an action executes and ends as rejected |
| ConfirmationSafety.ConcurrentUpdateIffTenAttempts | src/confirmations/confirmations.service.ts:292-307 | CONFIRMATION_CONCURRENT_UPDATE is reachable if and only if the limit is at least ten |
| ConfirmationSafety.ConcurrentUpdateOnPending | src/confirmations/confirmations.service.ts:292-307 | While the action is still pending, only for limits above ten |
| ConfirmationCalls.ConfirmationsService.Confirm | src/confirmations/confirmations.service.ts:197-285 | Among any other calls, what an action answers follows from its row: the right code on a pending action in time runs the effect unless the action is resolved or expired by the time of the claim, a wrong one is counted, and with nobody else about the row ends confirmed by this director or failed |
| ConfirmationCalls.ConfirmationsService.RejectAction | src/confirmations/confirmations.service.ts:309-334 | reject among any other calls is a run of the machine, its write by id alone included; a pending action in time, and only such a one, ends rejected |
| ConfirmationCalls.ConfirmationsService.RecordFailedAttempt | src/confirmations/confirmations.service.ts:292-307 | The loop ends with this guess counted, the action resolved by somebody else, or, for limits of ten and more only, a concurrent update |
| ConfirmationCalls.ConfirmationsService.ListPending | src/confirmations/confirmations.service.ts:336-369 | The list shows exactly the actions that were pending at its start and not overdue when each was looked at, with other calls and time passing before each row; undisturbed it expires the overdue ones and nothing else |
| BackupCells.CellComesBackIff | src/backups/backup-snapshot.ts:71-89 | decode of encode gives a value back if and only if it is not the JSON null and not an object whose one key is $bigint, $date or $decimal |
| Backup.OrderServesTheKeys | src/backups/backup-snapshot.ts:14-41 | Every foreign key of the schema that is not deferred refers to an earlier table |
| Backup.InsertKeepsIntact | src/backups/backup-snapshot.ts:205-207 | A chunk the database accepts keeps keys distinct and references sound everywhere |
| Backup.ChunkFits | src/backups/backup-snapshot.ts:194-209 | Any chunk of any table, in table order, is accepted on top of what is loaded before it |
| Backup.AttachedIntact | src/backups/backup-snapshot.ts:210-217 | After each user of the second pass keys are distinct and references sound |
| BackupRestore.RowComesBackIff | src/backups/backup-snapshot.ts:91-95 | A row comes back exactly if and only if none of its documents is ambiguous |
| BackupRestore.CopiesIntact | src/backups/backup-snapshot.ts:195-204 | The decoded rows keep all keys and references of the original database |
| BackupRestore.RestoreIsExactIff | src/backups/backup-snapshot.ts:191-218 | The restored rows are the original ones if and only if no document is ambiguous and no user needs the second pass, or was last changed at that very moment |
| BackupService.Database.CreateSnapshot | src/backups/backup-snapshot.ts:97-117 | The snapshot holds the encoding of every row of every table, in order |
| BackupService.Database.LoadTable | src/backups/backup-snapshot.ts:205-208 | 500 rows at a time, no chunk is refused and integrity holds after each |
| BackupService.Database.AttachUsers | src/backups/backup-snapshot.ts:210-217 | One user at a time, no update is refused and integrity holds after each |
| BackupService.Database.Restore | src/backups/backup-snapshot.ts:171-220 | A non-empty target or missing migrations are refused, a failure leaves nothing behind and comes only from a row that cannot be decoded, and success leaves every row restored |
| BackupService.Database.RestoreFresh | src/backups/backup-snapshot.ts:171-220 | Into an empty database with the migrations the result is the original if and only if the two conditions hold |
| Attendance.FixedZonesAdvance | src/common/business-calendar.service.ts:26-35 | With a fixed offset business dates never go back, which is all the attendance theorems ask of the zone |
| Attendance.RunKeeps | src/attendance/day-offs.service.ts:62-80 | In every serial run a missed date is over and has no day off, days off are unique, and nobody has two open shifts |
| AttendanceRuns.MissedExactly | src/attendance/missed-shifts.service.ts:59-100 | A missed row is there if and only if it was at the start or some check of the run charged the employee |
| AttendanceRuns.DayIsSettled | src/attendance/day-offs.service.ts:62-70 | Once a date is over, shifts worked and days off on it never change again |
| AttendanceRuns.MissedExactlyWhenAbsent | src/attendance/missed-shifts.service.ts:14-24 | Of a day that is over: it is missed if and only if it already was, or some check came in time, found the employee in a shift role, active and hired before, and the day had ended with no shift and no day off |
| AttendanceRuns.NeverMissedOnADayOff | src/attendance/day-offs.service.ts:27-32 | No date of anybody is both missed and a day off, in any run |
| AttendanceRuns.ScheduleDoesNotMatter | src/attendance/missed-shifts.service.ts:14-24 | Two runs that differ only in when and how often the job ran agree on everything else, and on the missed row of every day both checked |
| AttendanceRuns.ExtraRunsAddNothing | src/attendance/missed-shifts.service.ts:58-66 | Running the job again adds nothing |
| AttendanceRuns.MissedStaysMissed | src/attendance/day-offs.service.ts:27-32 | A recorded missed shift is never erased and never becomes a day off |
| AttendanceRuns.DayOffsAreAgreedInAdvance | src/attendance/day-offs.service.ts:62-70 | No call adds a day off on a past date or on one with a shift row, or takes one off a past date |
| AttendanceRuns.ShiftsAppearTodayOrMissed | src/attendance/shifts.service.ts:53-66 | No call removes a shift row; new ones are open shifts of today or missed ones of the window |
| AttendanceCalls.AttendanceServices.CatchUpAll | src/attendance/missed-shifts.service.ts:59-66 | The loop over the past working days gives a missed row to exactly the employees in a shift role, active and hired before a day of the window, without shift and day off on it; it keeps every other row and returns the number of new ones |
| AttendanceCalls.AttendanceServices.RecordMissedFor | src/attendance/missed-shifts.service.ts:69-100 | The same for one past working day; any other day adds nothing |
| AttendanceCalls.AttendanceServices.OpenOwn | src/attendance/shifts.service.ts:54-74 | Which of the four answers is given, by role, open shifts and the row of today, and the row that is added |
| AttendanceCalls.AttendanceServices.CloseOwn | src/attendance/shifts.service.ts:80-108 | Closing succeeds exactly if one is open, and then none is; its opening time stays and no other row changes |
| AttendanceCalls.AttendanceServices.GrantDay | src/attendance/day-offs.service.ts:71-99 | A day off is granted exactly for a date not past, an active employee with shifts, no shift and no day off on it; the first condition that fails is the answer |
| AttendanceCalls.AttendanceServices.MoveDay | src/attendance/day-offs.service.ts:139-163 | It is moved exactly if neither date is past and the new one is free of shift and day off |
| AttendanceCalls.AttendanceServices.CancelDay | src/attendance/day-offs.service.ts:164-168 | It is cancelled exactly if its date is not past |
| Accounting.CalendarMonthsAdvance | src/common/business-calendar.service.ts:113-115 | The calendar's months never go back, which is all the accounting theorems ask of them |
| Accounting.RunKeeps | src/accounting/accounting.service.ts:109-126 | In every serial run categories match types, amounts are positive, no date lies ahead, and only finished months are closed |
| Accounting.ClosedMonthsAreFrozen | src/accounting/accounting.service.ts:153-202 | A closed month stays closed, and its lines with type, category, amount and date stay the same in every later run, moves by date included |
| Accounting.OnlyTheOwnerChanges | src/accounting/accounting.service.ts:153-202 | The figures of a transaction change or go only at the hands of the accountant who entered it, while its month is open |
| AccountingReports.TotalsAreSums | src/accounting/accounting.service.ts:268-277 | In whatever order groupBy returns its groups, the totals are the sums over the transactions |
| AccountingReports.RowsAddUpToTotals | src/accounting/accounting.service.ts:284-293 | The category rows, each found by category alone, add up to the total of their type |
| AccountingReports.SummaryShowsItsLines | src/accounting/accounting.service.ts:259-295 | Over any lines whose categories match their types, the answer of summary is exactly what those lines say |
| AccountingReports.EverySummaryAddsUp | src/accounting/accounting.service.ts:266-295 | In every reachable book and whatever order groupBy chose, the summary of a range shows the sums of its income and expense lines, their difference, and one row per category in order with the number and sum of its lines; the rows add up to the totals. Refused are exactly reversed ranges and those of more than 366 days |
| AccountingReports.ClosedSummaryIsConstant | src/accounting/accounting.service.ts:229-233 | The summary of a range inside closed months is the same for ever |
| AccountingReports.AdjacentRangesAdd | src/accounting/accounting.service.ts:266-283 | Summaries of adjacent ranges add up to that of both |
| AccountingReports.DailyReportsAddUp | src/reports/reports.service.ts:114-131 | The results of the daily reports over a range add up to the net of its summary, however groupBy ordered the groups of each |
| AccountingCalls.AccountingService.CreateTransaction | src/accounting/accounting.service.ts:109-129 | Which answer is given, by amount, type and category, date, month and contract, and the row that is added |
| AccountingCalls.AccountingService.UpdateTransaction | src/accounting/accounting.service.ts:163-190 | An edit goes through exactly for the owner while the old and the new month are open and what it ends with is allowed; then every figure sent has its new value, every other keeps its own, and no other row changes |
| AccountingCalls.AccountingService.RemoveTransaction | src/accounting/accounting.service.ts:197-202 | A removal goes through exactly for the owner while the month is open, and takes that row alone |
| AccountingCalls.AccountingService.AttachFile | src/accounting/accounting.service.ts:204-218 | A file goes to exactly that row, exactly for the owner while the month is open |
| AccountingCalls.AccountingService.CloseMonth | src/accounting/accounting.service.ts:229-251 | Only a finished month closes, and only once; no other month does |
| Payroll.FinalFits | src/payroll/payroll.service.ts:57-61 | The final amount, which is never checked, always fits its column |
| Payroll.ComputeFailsOnlyOnTheFine | src/payroll/payroll.service.ts:57-61 | The computation throws exactly if the fine is out of range |
| Payroll.RunKeeps | src/payroll/payroll.service.ts:154-212 | In every serial run every entry satisfies the three formulas |
| Payroll.GenerateTwice | src/payroll/payroll.service.ts:146-153 | With unchanged shifts and settings a second generate changes nothing and ends as the first did, at the same RangeError if there was one |
| Payroll.CarriedFromLastConfirmed | src/payroll/payroll.service.ts:191-195 | A new draft's salary is that of the employee's last confirmed earlier month; without one it is zero |
| Payroll.GenerateSetsEveryRow | src/payroll/payroll.service.ts:154-212 | A generate that completes treats every employee as if alone - confirmed, draft or new - and leaves every other row as it was |
| Payroll.GenerateCompletesIff | src/payroll/payroll.service.ts:168-212 | It completes if and only if each fine it has to compute fits its column |
| Payroll.ManualFineSurvives | src/payroll/payroll.service.ts:171-188 | generate keeps a draft's salary and a fine set by hand |
| Payroll.SummaryBalances | src/payroll/payroll.service.ts:269-281 | Each of the director's totals is the sum of its own column, and the totals satisfy the formula of a single entry |
| PayrollRaces.ConfirmedIsFrozen | src/payroll/payroll.service.ts:317-336 | Statement by statement, a confirmed entry never changes in any field |
| PayrollRaces.OneConfirmationWins | src/payroll/payroll.service.ts:329-336 | Of all calls confirming an entry at most one is told it did |
| PayrollRaces.FinalAlwaysBalances | prisma/migrations/20260917090000_crm_mvp_modules/migration.sql:375 | In every interleaving the final amount is what salary, fine and tax leave, the tax is within the salary, and final amount and fine fit their columns |
| PayrollRaces.StaleRefreshHarmlessIff | src/payroll/payroll.service.ts:171-188 | generate's late write is accepted exactly if the salary is unchanged; the formulas hold after it if and only if, besides, the row is still marked as fined by hand, or the fine written was computed or equals the computed one |
| PayrollRaces.StaleAdjustmentHarmlessIff | src/payroll/payroll.service.ts:297-321 | After update's late write the formulas hold if and only if tax and fine are what the row still asks for |
| PayrollRaces.ManualFineIsOverwrittenIff | src/payroll/payroll.service.ts:171-188 | A late generate overwrites a fine set by hand exactly if it had worked out another, and leaves the mark |
| PayrollRaces.OnlyUpdatesMustBeWhole | src/payroll/payroll.service.ts:154-336 | With every update in one piece and everything else interleaving freely, every entry satisfies all formulas all the time |
| PayrollRaces.RacesStartSound | src/payroll/payroll.service.ts:154-212 | The three races below start from a table that satisfies everything |
| PayrollRaces.InterleavingBreaksTheFine | src/payroll/payroll.service.ts:297-321 | A race that ends with two missed shifts and no fine |
| PayrollRaces.LateGenerateBreaksTheFine | src/payroll/payroll.service.ts:171-188 | A race in which generate's write leaves a fine of 7 for no missed shift and no mark |
| PayrollRaces.LateGenerateLosesAManualFine | src/payroll/payroll.service.ts:171-188 | A race in which a generate around a whole edit overwrites the fine set by hand |
| PayrollCalls.PayrollService.GenerateMonth | src/payroll/payroll.service.ts:154-212 | After a generate every employee has the row the rules ask for: a confirmed one as it was, a draft with its salary and manual fine and fresh shifts and rates, or a new one with the carried salary; every other row is as it was. It ends in a RangeError exactly if a computed fine does not fit, and what was written before stays |
| PayrollCalls.PayrollService.UpdateDraft | src/payroll/payroll.service.ts:297-327 | An accepted edit sets the salary and the manual fine it was given, works out tax, fine and final amount, and leaves the rest; a refused one changes nothing, and a table that satisfies the formulas refuses no edit of a draft as out of range |
| PayrollCalls.PayrollService.Put | src/payroll/payroll.service.ts:117-124 | Settings are taken exactly with a rate of at most 100 % and a fine in range |
| PayrollCalls.PayrollService.ConfirmDraft | src/payroll/payroll.service.ts:329-339 | A confirmation succeeds exactly for a draft and changes nothing but its status |
| PayrollCalls.PayrollService.Summarize | src/payroll/payroll.service.ts:261-284 | One pass over the rows gives the sum of each column, and they balance |
| Sales.OneBookingPerLead | src/sales/leads.service.ts:224-250 | In every interleaving the bookings made from a lead are exactly the one it names, or none |
| Sales.ConversionIsFinal | src/sales/leads.service.ts:160-191 | A converted lead never changes again, stale assigns and rejects included, and its booking stays |
| Sales.DeletedIffNotFromALead | src/sales/bookings.service.ts:206-211 | A booking can be deleted if and only if no lead became it, since setting the lead's reference to null breaks a CHECK constraint; its contract then stands without a booking |
| Sales.LosingConvertLeavesNothing | src/sales/leads.service.ts:242-250 | A convert that does not win changes no table, and it wins exactly if the lead is still open |
| Sales.OneConvertWins | src/sales/leads.service.ts:224-250 | At most one call converts a lead, and the winner's booking stands |
| Sales.OneContractPerBooking | src/sales/contracts.service.ts:186-213 | A booking has at most one contract, however conversions, edits and deletions interleave |
| Sales.KeyIsNotNeeded | src/sales/contracts.service.ts:159-163 | With every booking edit in one piece no conversion ever fails on the unique key: a booking with a contract is converted all the time |
| Sales.StaleEditNeedsTheKey | src/sales/bookings.service.ts:158-190 | A run in which a stale edit lets a second conversion get as far as the key |
| Sales.ContractedIsLostIff | src/sales/bookings.service.ts:158-190 | A booking leaves converted if and only if an edit loaded before writes a status |
| Sales.ContractedForGood | src/sales/contracts.service.ts:186-191 | Once no such edit is under way, a booking stays converted and every late conversion of it is refused at its status check |
| SalesCalls.SalesServices.Convert | src/sales/leads.service.ts:210-250 | convert wins exactly if the lead is new or assigned with a manager when loaded and still new or assigned at the transaction; then its booking is the only one of the lead, and otherwise it leaves nothing of its own |
| SalesCalls.SalesServices.Assign | src/sales/leads.service.ts:160-184 | assign is refused exactly for a lead that is not new or assigned when loaded, and among other calls fails exactly on a lead converted meanwhile, which it leaves alone |
| SalesCalls.SalesServices.Reject | src/sales/leads.service.ts:187-201 | reject is refused exactly for a converted lead, and fails exactly on one converted meanwhile |
| SalesCalls.SalesServices.EditBooking | src/sales/bookings.service.ts:158-203 | An edit is refused exactly for a converted booking; once loaded it writes its status whatever the booking has become |
| SalesCalls.SalesServices.CreateFromBooking | src/sales/contracts.service.ts:164-213 | A contract is drawn exactly from a booking active when loaded and at the transaction, without a contract; it is the only one and the booking is converted, and otherwise the transaction leaves nothing |
| ContractTerms.WhyRefused | src/sales/contracts.service.ts:67-80 | Exactly which requests fail and how; the deposit's own range check adds nothing |
| ContractTerms.AmountsAreRounded | src/common/money.ts:54-62 | Total and deposit are rounded half up, and the deposit is part of the total |
| ContractTerms.EmptyPatchChangesNothing | src/sales/contracts.service.ts:315-340 | A request naming no term leaves area, price, percent and both amounts as they were |
| ContractTerms.SendingBackWhatIsShown | src/sales/contracts.service.ts:93-108 | So does a request that sends back what the contract's page shows |
| ContractTerms.UnnamedTermsStay | src/sales/contracts.service.ts:315-319 | A term that is not named keeps its value |
| ContractTerms.TermsStayAsAgreed | src/sales/contracts.service.ts:304-348 | Through any run without a named term the terms and amounts stay |
| ContractTerms.RunKeeps | src/sales/contracts.service.ts:60-65 | In every serial run the status is what deposit and file make it, and the row satisfies its equations |
| ContractTerms.SignedIsReadOnlyForManagers | src/sales/contracts.service.ts:294-304 | Nothing a sales manager sends changes a signed contract |
| ContractTerms.ContractRow.ApplyPatch | src/sales/contracts.service.ts:306-345 | Who may edit, which of the texts is refused and why; an accepted edit has the terms sent, keeps the others and recomputes the amounts |
| ContractTerms.ContractRow.Mark | src/sales/contracts.service.ts:353-367 | Marking the deposit is allowed exactly to those who may; the time of the first payment stays, and signed means paid with a file |
| ContractTerms.ContractRow.Attach | src/sales/contracts.service.ts:372-388 | A file is stored exactly for those who may edit, and signs a paid contract |
| Money.FormatThenDecimal | src/common/money.ts:30-46 | Every integer of hundredths is read back from its printed form |
| Money.FormatThenParse | src/common/money.ts:23-37 | The API parser reads the printed form back exactly for amounts from 0 up to 10^12, and refuses all others |
| Money.ParseAgrees | src/common/money.ts:23-46 | What the API parser accepts, the database text means the same number |
| Money.ParseThenFormat | src/common/money.ts:23-37 | Printing reproduces an accepted text exactly if it has two decimals |
| Money.StoredDecimalReads | src/common/money.ts:39-46 | A stored Decimal survives the driver's text without trailing zeros |
| Money.TyiynRoundTrip | src/common/money.ts:13-21 | A printed amount is accepted back exactly below 10^16 |
| Money.RoundsHalfUp | src/common/money.ts:48-52 | mulDivRoundHalfUp is the one integer nearest to the quotient, ties going up |
| Money.MulDivMonotone | src/common/money.ts:48-52 | It is monotone in both factors |
| Money.PercentWithinWhole | src/common/money.ts:59-62 | A share of at most 100 % never exceeds the whole, and 100 % is the whole |
| Money.SharesAddUp | src/common/money.ts:59-62 | A share and its complement add up to the whole or to one tyiyn more |
| FrontendMoney.FormatThenType | frontend/src/features/contracts/money.ts:23-64 | Typing what was shown gives back every amount the API can send |
| FrontendMoney.FormatInjective | frontend/src/features/contracts/money.ts:56-64 | Different amounts are shown differently |
| FrontendMoney.GroupsFromTheRight | frontend/src/features/contracts/money.ts:47-50 | The grouping expression cuts threes from the right |
| FrontendMoney.TypedAmount | frontend/src/features/contracts/money.ts:19-35 | A typed amount means its number of tyiyn, and is refused exactly if it is no number or reaches 10^16 |
| FrontendMoney.SignedFormat | frontend/src/features/contracts/money.ts:74-86 | A negative total is shown, and no form accepts it back |
| FrontendMoney.NormalizedMeansTheSame | frontend/src/features/contracts/money.ts:101-113 | A normalised area or percent stands for the typed number, and the API accepts it exactly below 10^12 |
| CivilDays.OrderAgrees | src/common/business-calendar.service.ts:91-101 | Calendar order of dates is the order of their day numbers |
| CivilDays.MonthLengths | src/common/business-calendar.service.ts:91-97 | The months have the lengths of the Gregorian calendar |
| CivilDays.CivilOfDay | src/common/business-calendar.service.ts:91-101 | Every valid date is the date of its day number |
| BusinessCalendar.AcceptedDates | src/common/business-calendar.service.ts:92-97 | toDbDate accepts exactly the printed forms of days with a four-digit year |
| BusinessCalendar.RealDates | src/common/business-calendar.service.ts:92-97 | Those are exactly the texts of the pattern whose day is within its month, no 30 February |
| BusinessCalendar.DayRoundTrip | src/common/business-calendar.service.ts:92-101 | A day is read back from its text |
| BusinessCalendar.TextOrderIsDayOrder | src/common/business-calendar.service.ts:4-8 | Comparing business dates as strings compares the days |
| BusinessCalendar.AddDaysReaches | src/common/business-calendar.service.ts:43-47 | addDays leads from any date to any other by their distance |
| BusinessCalendar.PastWorkingDays | src/common/business-calendar.service.ts:81-88 | The loop, through addDays on texts, returns the texts of exactly the working days of the lookback, strictly falling |
| BusinessCalendar.EpochIsThursday | src/common/business-calendar.service.ts:37-41 | Day 0 is 1970-01-01, a Thursday |
| BusinessCalendar.EachWeekdayOnceAWeek | src/common/business-calendar.service.ts:37-41 | Any seven days in a row have each weekday once |
| BusinessCalendar.StartOfDay | src/common/business-calendar.service.ts:55-62 | The two passes compute the start that the lemmas below speak of |
| BusinessCalendar.StartIsLocalMidnight | src/common/business-calendar.service.ts:54-62 | In any zone the result is local midnight if and only if the offset there is the one the second pass used |
| BusinessCalendar.TwoPassesFindMidnight | src/common/business-calendar.service.ts:54-62 | Around one change of offset the two passes find local midnight if and only if the day has one |
| BusinessCalendar.BoundsAgreeWithDate | src/common/business-calendar.service.ts:49-52 | With a fixed offset an instant lies in a day's bounds if and only if that is its date |
| BusinessCalendar.CreatedBeforeDay | src/attendance/missed-shifts.service.ts:78-79 | With a fixed offset an account was created before the day began if and only if on an earlier date |
| BusinessCalendar.PeriodAgrees | src/common/business-calendar.service.ts:103-115 | A date belongs to a month if and only if it lies in the month's range, for all dates if and only if the year is at least 100 |
| BusinessCalendar.PeriodOrder | src/accounting/accounting.service.ts:230-231 | Comparing periods as strings compares the months |

## Left out

- HTTP, guards, DTO validation, Swagger, throttling, cookies and their scope, roles and visibility rules: plumbing and case tables.
- Audit rows, logging, email delivery and stored file blobs: they do not feed back into the properties, except that an undelivered email code is deleted.
- Hashing, encryption, gzip, JSON serialisation of the snapshot file, random codes: hashes are injective, fresh ids, codes and access tokens are new; only secrets the server has handed out, or secrets of no row, are presented.
- Postgres below the statement: a statement is atomic and sees the latest committed rows; a failing statement of a rotation is the event `Throw`, which abandons its call.
- The browser: several tabs, a second login, logout and revocation of the same user while the tab runs are not part of `BrowserSession`; consent state and the user record are not either. Between the end of a refresh and its `finally` the model lets other events happen, more than a browser would.
- `executeCreateUser` and `executeDisableUser` as effects of a confirmation: they are one step that succeeds or fails; the advisory lock around account creation is not modelled.
- Unique keys of the backed-up tables other than primary keys: a subset of rows satisfying them satisfies them.
- `decodeValue` of a `$date` or `$bigint` document whose content is not text: the model lets it throw, the code may build another value; the original is lost either way.
- `BigInt` of texts with spaces or in other bases: `DecimalToCenti` is given database texts, which have neither.
- `en-CA` printing of years below 1000 in `dateOf`, and time-zone data: zones are functions from instants to offsets, and `Attendance` asks only that local dates do not go back.
- Authorisation in `Attendance` and `Accounting` beyond ownership: an unauthorised call is one that does nothing.
- Attendance, Accounting, Payroll formulas and contract status under overlapping calls: each service reads first and writes later, so its promise is about whole calls; `PayrollRaces` is the exception.
- Which of several refusals a call of `Sales` gets: they are one `Refused`, and what is proved is when it is given.
- Listing, searching and Excel export, the row counts of the payroll summary, daily report texts and the `prisma/ops-*` scripts: they would add only easy members.
- PendingHasAGuessLeft: an action created with a limit of zero is pending without a guess left, so the second half asks for a positive limit.
