# Finora: a verified model

Finora is a personal-finance application built from small services. This project models its
stateful and arithmetic core in Dafny and proves what that core is for:

* **Overspend announcements.** A created transaction makes budget-service recheck its owner's
  budgets and queue at most one `finora.budget.overspent` event per budget and period.
  `Calendar` is the period arithmetic over proleptic Gregorian dates; `MessageId` the text of the
  deduplication key; `Budgets`, `Overspend`, `OverspendRuns` and `Delivery` the services and their
  runs; `OverspendRepeats` the exact conditions under which a period is announced twice; `Report` the
  on-demand summary.
* **Event transport.** `Outbox`, `EventBus`, `Relay` and `RelayMachine` are the
  publish-then-mark protocol with its faults as steps, any number of relays interleaved;
  `Consumer` the durable subscription; `Pipeline` composes all of it with overspend detection, and
  `EndToEnd` puts expense-service's ledger, outbox, relays and stream in front.
* **Sessions.** `Tokens` and `Auth` are refresh-token rotation; `AuthRuns` its chain invariants;
  `AuthReaping` a simulation showing that deleting expired records is unobservable; `ApiClient`
  and `ApiClientRuns` the browser's single-flight refresh, page reloads included, against a server
  whose lookup, check, revoke and issue are separate steps.
* **Rate limiting.** `RateLimit` is the swept map of token buckets; `RateLimitTraces` compares it
  with one private bucket per client kept for ever.
* **Ledger and sums.** `Ledger` is the transaction collection with its filter, sort and paging;
  `Spending` the page loop that sums a category; `PeriodSpending` joins it to the calendar and the
  overspend decision.
* **Statement import.** `Text`, `Decimal`, `AmountText`, `ImportDates` and `ImportColumns` read the
  cells of a CSV file; `Import` turns rows into transactions; `Transactions` and `TransactionRuns`
  store and announce them; `LedgerLaws` says what each operation does to the sums.

Code that changes state in place is written as classes, each method proved equal to a function of
the old state; the theorems are about those functions and about all runs built from them.
Money is `real`, an instant is an integer number of nanoseconds since 1970, a clock in the limiter
is a `real` number of seconds. What the outside world answers (a failed insert, a lost
acknowledgement, a fresh id, the current time) is a parameter, so every theorem covers every answer.
`Text.Library` holds the library behaviour the model leaves open; theorems hold for all of it.

## Where the code does not meet its own description

* `overspend_service.go:80-88` says a budget notifies once per distinct period. The comparison with
  the stored mark is exact, so over any run the promise fails exactly when a delivery returns to an
  announced period that the last written mark does not name (`OverspendRepeats.RepeatsIffReturns`).
  When every write of `LastNotifiedAt` succeeds, that means another period was announced since, which
  takes a change of cadence (`OverspendRepeats.RepeatsIffComesBack`, `SwitchBackRepeatsIff`); when
  cadences are kept, it means that no write for the period ever succeeded
  (`OverspendRepeats.RepeatsIffForgotten`).
* `ratelimit.go:49-51` promises a sustained rate with bursts up to `burst`. Because idle buckets are
  dropped after three minutes, this bound holds on every trace exactly when
  `burst <= 180 * requestsPerSecond` (`RateLimitTraces.RateKeptIffRefilledWhenSwept`); the gateway's
  defaults, 10 and 20, satisfy it.
* `eventbus.go:93-100` promises collapse within the deduplication window only; across it a late
  republish is stored again (`RelayMachine.LateRepublishIsStoredAgain`), and ids stay unique exactly when
  there is none (`RelayMachine.UniqueIffTimely`).
* `auth_service.go:132-140` takes a revoked token as evidence of theft. An honest tab triggers it too,
  exactly when one of its requests is checked that was looked up after its token had been logged out or
  rotated by another request (`ApiClientRuns.ContainedIffOvertaken`); as long as no reload makes the client resend a token, only
  an overtaking logout does that (`ApiClientRuns.ContainedIffLogoutOvertakes`).
* `api.ts:128-130` dedupes refreshes in a module variable, which a page reload loses while the token
  stays in local storage: a token is sent twice exactly when such a token is sent again
  (`ApiClientRuns.SingleFlight`, `ApiClientRuns.ReloadDuringRefreshIsContained`).
* `transaction_import.go:201-205` accepts a currency symbol and accounting parentheses, but an amount
  printed with both reads exactly when no parenthesis is left inside the outermost pair of the trimmed text
  (`AmountText.ParenthesesReadIffOutermost`), so `$(45.00)`, `-(45.00)` and `(45.00)$` are refused.
* A header that names one of the importer's columns twice makes the result depend on column order
  (`ImportColumns.LayoutIndependentIff`).
* The range of a category sum is sent as RFC 3339 text without fractions (`expense_client.go:172-173`).
  What is summed at now is all of the period's expenses so far exactly when none is dated in the second
  in progress (`PeriodSpending.AllCountedIffNoneInProgress`), and detection misses an exceeded budget
  exactly when the expenses up to the last whole second stay within it
  (`PeriodSpending.MissedIffOverInProgress`). An expense can so be missed by its own delivery
  (`PeriodSpending.OwnDeliveryMissesIt`); a delivery of the same period after that second finds it
  (`PeriodSpending.LaterDeliveryFindsIt`).

## Model

| member | source | states |
|---|---|---|
| Calendar.CivilNamesDay | services/budget-service/internal/service/overspend_service.go:141-151 | every day has a valid Gregorian date, and that date names the day again |
| Calendar.DayNamesCivil | services/budget-service/internal/service/overspend_service.go:141-151 | every valid date is the date of the day it names: the two conversions are inverse |
| Calendar.AddDaysShifts | services/budget-service/internal/service/overspend_service.go:145 | subtracting days and renormalising moves the day number by exactly that many, across months and years |
| Calendar.StartBracketsNow | services/budget-service/internal/service/overspend_service.go:140-153 | the start opens a period (a Monday, the 1st, 1 January) and start <= now < next period's start |
| Calendar.StartIsTheOnlyBracket | services/budget-service/internal/service/overspend_service.go:140-153 | no other instant that opens a period brackets now |
| Calendar.StartIdempotent | services/budget-service/internal/service/overspend_service.go:140-153 | a period start is the start of its own period |
| Calendar.StartMonotone | services/budget-service/internal/service/overspend_service.go:140-153 | a later now never has an earlier start |
| Calendar.EqualStartsIffSamePeriod | services/budget-service/internal/service/overspend_service.go:140-153 | two instants share a start exactly when they share the week, the month or the year |
| Calendar.WeekStartsOnMonday | services/budget-service/internal/service/overspend_service.go:143-145 | the weekly start is a Monday midnight zero to six days back |
| Calendar.YearsAreGregorian | services/budget-service/internal/service/overspend_service.go:146-151 | years begin where the rule of 4, 100 and 400 puts them, in closed form |
| Calendar.MonthsAreGregorian | services/budget-service/internal/service/overspend_service.go:141-151 | which months have a 29th, 30th and 31st; 29 February exists exactly in years of 366 days |
| Calendar.WeekdaysAdvance | services/budget-service/internal/service/overspend_service.go:144 | 1 January 1970 is a Thursday and day 0, and weekdays follow one another |
| Calendar.StartsIn2026 | services/budget-service/internal/service/overspend_service.go:135-153 | in Unix seconds: all of March 2026 starts on the 1st, 2026 on 1 January, two weeks on their Mondays, one of them in the year before |
| MessageId.Rfc3339Injective | services/budget-service/internal/service/overspend_service.go:112 | equal RFC 3339 texts come from the same second |
| MessageId.MsgIdInjective | services/budget-service/internal/events/publisher.go:42 | two overspent events share a message id only if they share budget and period start |
| ImportDates.Rfc3339ReadsBack | services/budget-service/internal/service/overspend_service.go:112 | for the years 0 to 9999 the text reads back as the day and the time of day |
| Budgets.BudgetRepository.Create | services/budget-service/internal/repository/mongo_budget_repository.go:62-80 | appends one budget without a mark, or nothing when the insert fails |
| Budgets.BudgetRepository.ListByUser | services/budget-service/internal/repository/mongo_budget_repository.go:82-101 | exactly the owner's documents in collection order, or a storage error |
| Budgets.BudgetRepository.GetByIDForUser | services/budget-service/internal/repository/mongo_budget_repository.go:103-120 | the owner's document of that id; not found and storage errors apart |
| Budgets.BudgetRepository.Update | services/budget-service/internal/repository/mongo_budget_repository.go:122-154 | replaces exactly the document with that id and owner; not found and storage errors leave everything |
| Budgets.BudgetRepository.DeleteByIDForUser | services/budget-service/internal/repository/mongo_budget_repository.go:156-171 | removes exactly that document; not found and storage errors apart |
| Budgets.BudgetService.Create | services/budget-service/internal/service/budget_service.go:27-51 | validation order and messages, the storage error, and the new document |
| Budgets.BudgetService.Update | services/budget-service/internal/service/budget_service.go:61-88 | succeeds exactly when valid, found and stored, with each error in its order; an edit changes category, amount and period and keeps the mark |
| Budgets.BudgetService.Delete | services/budget-service/internal/service/budget_service.go:90-92 | removes the owner's document, or reports it missing or the storage error |
| Budgets.OwnedMembers | services/budget-service/internal/repository/mongo_budget_repository.go:82-101 | a listing holds exactly the user's documents, and distinct ids stay distinct |
| Budgets.AcceptedIff | services/budget-service/internal/service/budget_service.go:28-39 | a budget is accepted exactly with a category, an amount in (0, 10^12] and one of the three cadences |
| Budgets.EditWrites | services/budget-service/internal/repository/mongo_budget_repository.go:129-144 | an edit writes category, amount and cadence of the one document, keeps its mark and owner, and touches no other |
| Outbox.OutboxStore.Enqueue | shared/outbox/outbox.go:77-86 | appends one unpublished row, or nothing when the insert fails |
| Outbox.OutboxStore.FindUnpublished | shared/outbox/outbox.go:133-140 | the unmarked rows in insertion order |
| Outbox.UnpublishedMembers | shared/outbox/outbox.go:133-140 | the cursor holds exactly the unmarked rows, each once, ascending |
| Outbox.OutboxStore.MarkPublished | shared/outbox/outbox.go:155-161 | marks that row alone, or nothing when the update fails |
| Overspend.OverspendService.NotifyIfOverspent | services/budget-service/internal/service/overspend_service.go:100-133 | queues the event unless this period was announced, and marks only after a successful enqueue |
| Overspend.OverspendService.CheckBudget | services/budget-service/internal/service/overspend_service.go:60-76 | one budget: a failed lookup skips it, a negative remainder notifies |
| Overspend.OverspendService.CheckAll | services/budget-service/internal/service/overspend_service.go:60-77 | the budget loop: visiting listed budgets one after another marks and announces exactly those that fire |
| Overspend.OverspendService.HandleTransactionCreated | services/budget-service/internal/service/overspend_service.go:54-78 | although budgets are visited one after another, the outcome is pointwise: each is announced and marked by its own state alone |
| Overspend.OverspendService.PublishBudgetOverspent | services/budget-service/internal/events/publisher.go:29-44 | the queued row's subject, payload and `budgetID:periodStart` id |
| Overspend.RowTells | services/budget-service/internal/events/publisher.go:42-43 | the row's subject, payload and id, spelled out |
| OverspendRuns.StepKeepsInv | services/budget-service/internal/service/overspend_service.go:100-133 | deliveries, edits, creations and deletions each keep the mark the greatest announced start |
| OverspendRuns.RunKeepsInv | services/budget-service/internal/service/overspend_service.go:54-133 | over every steady run each budget's mark is the greatest start announced for it |
| OverspendRuns.OncePerPeriod | services/budget-service/internal/service/overspend_service.go:100-133 | over every run whose marks persist and whose edits keep the cadence, the queued message ids are pairwise different |
| OverspendRuns.PairsAreIds | services/budget-service/internal/events/publisher.go:34-42 | message ids repeat exactly when a budget and a period start do |
| OverspendRepeats.StepKeepsTracks | services/budget-service/internal/service/overspend_service.go:115-132 | in every step a budget's mark is the start of its last event whose mark was written |
| OverspendRepeats.RepeatsIffReturns | services/budget-service/internal/service/overspend_service.go:80-133 | over every run, with any edits and lost writes, queued ids are distinct exactly when no delivery returns to an announced period that the last written mark does not name |
| OverspendRepeats.RepeatsIffComesBack | services/budget-service/internal/service/overspend_service.go:80-133 | over every run whose marks are all written, with any edits, the mark is the last announced period, and ids are distinct exactly when no delivery comes back to a period after another was announced |
| OverspendRepeats.RepeatsIffForgotten | services/budget-service/internal/service/overspend_service.go:115-132 | over every run that keeps cadences, with any lost writes, ids are distinct exactly when no delivery reaches an announced period for which no mark was ever written |
| OverspendRepeats.AnnouncedAtLeastOnce | services/budget-service/internal/service/overspend_service.go:54-133 | over every run each budget found overspent by a delivery whose listing, lookup and enqueue work has an event for its period in the queue |
| OverspendRepeats.AnnouncedExactlyOnce | services/budget-service/internal/service/overspend_service.go:54-133 | over every steady run it has exactly one |
| OverspendRepeats.SwitchBackRepeatsIff | services/budget-service/internal/service/budget_service.go:80-84 | a cadence switched away and back repeats an announcement exactly when the other cadence was announced and marked in between |
| OverspendRepeats.RepeatsIffMarkLost | services/budget-service/internal/service/overspend_service.go:115-132 | of two deliveries in one period with nothing between them, the second repeats the first exactly when the write of the mark failed |
| OverspendRepeats.CadenceEditsCanRepeat | services/budget-service/internal/service/budget_service.go:80-84 | a run in which that happens: weekly, monthly, weekly again announces one week twice |
| Delivery.RedeliveryFiresIff | services/budget-service/internal/service/overspend_service.go:100-133 | a redelivery at one clock and ledger announces a budget exactly when the first try left it unsettled |
| Delivery.RedeliveryIsQuiet | services/budget-service/internal/service/overspend_service.go:54-133 | after a settled handling a redelivery queues nothing and changes no budget |
| Delivery.OrderDoesNotMatter | services/budget-service/internal/service/overspend_service.go:55-76 | any listing order gives the same multiset of events and of budgets |
| Delivery.FailureIsLocal | services/budget-service/internal/service/overspend_service.go:62-71 | what fails for one budget changes no other budget and no other event |
| Delivery.EditDecides | services/budget-service/internal/service/overspend_service.go:60-75 | after an edit a delivery decides by the new category, cadence and amount |
| Report.ReportService.Summary | services/budget-service/internal/service/report_service.go:36-71 | one line per owned budget and the two totals, or the first budget in order whose lookup failed |
| Report.TotalsBalance | services/budget-service/internal/service/report_service.go:57-67 | total budgeted minus total actual is the sum of the remainders, one line per budget |
| Report.TotalsAreSums | services/budget-service/internal/service/report_service.go:66-67 | the totals are the sums of the budgets' amounts and of what was spent on them |
| EventBus.Bus.Publish | shared/eventbus/eventbus.go:93-111 | stores unless a message of that id is inside the window; errors with and without storing |
| RelayMachine.StepKeepsSafe | shared/outbox/outbox.go:140-162 | every step, faulty or not, keeps marked events represented and the stream free of inventions |
| RelayMachine.RelaySafety | shared/outbox/outbox.go:132-163 | over all interleavings of any number of relays and all faults: nothing in the stream that was not queued, every marked event represented there, no mark undone |
| RelayMachine.UniqueIffTimely | shared/eventbus/eventbus.go:93-111 | at most one message per non-empty id exactly when no publish comes after its id's window |
| RelayMachine.LateRepublishIsStoredAgain | shared/outbox/outbox.go:147-153 | for any event with an id: stored, reported as an error and published again, it is in the stream twice exactly when two minutes have passed |
| Relay.Relay.Visit | shared/outbox/outbox.go:140-162 | one row: decode, publish, mark only what was acknowledged |
| Relay.Relay.RelayOnce | shared/outbox/outbox.go:132-163 | one pass, as a function of the rows, the stream and the faults |
| Relay.PassDrains | shared/outbox/outbox.go:140-162 | a pass leaves pending exactly the rows it failed on; never more than before, none when nothing failed |
| Relay.PassIsRun | shared/outbox/outbox.go:132-163 | the method's pass is a run of the step machine, so the safety theorem covers it |
| Relay.PassDelivers | shared/outbox/outbox.go:132-163 | after any pass from a safe state every event that is not pending is represented in the stream |
| Relay.FaultFreePassDelivers | shared/outbox/outbox.go:132-163 | a pass in which nothing fails leaves every event marked and represented in the stream |
| Consumer.AttemptsAreBounded | shared/eventbus/eventbus.go:139-161 | no message is handled more than ten times, and a run's attempts spend a decreasing budget |
| Consumer.NothingAfterAck | shared/eventbus/eventbus.go:113-117 | a message whose acknowledgement arrived is never handled again |
| Consumer.AckedIffSettled | shared/eventbus/eventbus.go:155-161 | over every run a message ends acknowledged exactly when it began so or some handling succeeded with its acknowledgement arriving; each handling counts once |
| Consumer.UnsettledIsRedelivered | shared/eventbus/eventbus.go:113-117 | until then it is delivered again as long as it was handled fewer than ten times |
| Pipeline.RunAsConsumer | services/budget-service/cmd/server/main.go:78-89 | the pipeline's tracks are those of a run of the consumer whose handler outcome is the listing's |
| Pipeline.DoneIffHandled | services/budget-service/cmd/server/main.go:78-89 | over every run a transaction's message is done with exactly when a handling got its budgets listed, or its bytes are unreadable, and the acknowledgement arrived; else it comes again up to ten times |
| Pipeline.AnnouncedOncePerPeriod | services/budget-service/cmd/server/main.go:73-93 | consumer, overspend handling, outbox, relays and stream together: one message per budget and period, and every marked row's own event is stored |
| Pipeline.OneMessageIffTimely | services/budget-service/internal/events/publisher.go:34-42 | over every run, with any edits and lost marks, the stream holds one message per budget and period exactly when each storing publish is inside its id's window |
| EndToEnd.LedgerToAnnouncement | services/budget-service/cmd/server/main.go:73-93 | from expense-service's inserts through both outboxes, relays and streams: each transaction consumed at most once, at most ten handling attempts per insert, announcements only to users with stored transactions, one per budget and period, every announcement true of the ledger when queued, marked rows in their streams |
| EndToEnd.RunQueuesTrue | services/budget-service/internal/service/overspend_service.go:60-76 | every event of every run, when queued, states a stored budget and the category's sum over the ledger of that moment, which exceeds it |
| EndToEnd.TrueMeansExceeded | services/budget-service/internal/service/overspend_service.go:105-113 | such an event's actual amount is the owner's expenses in the category since the period start up to the last whole second, within the cap |
| Tokens.RefreshTokenRepository.Create | services/user-service/internal/repository/refresh_token_repository.go:21-24 | stores the record, or nothing when the insert fails |
| Tokens.RefreshTokenRepository.FindByJtiHash | services/user-service/internal/repository/refresh_token_repository.go:26-36 | the record of that hash, if stored |
| Tokens.RefreshTokenRepository.Revoke | services/user-service/internal/repository/refresh_token_repository.go:38-47 | revokes the record of that id alone; unmatched is not found |
| Tokens.RefreshTokenRepository.RevokeAllForUser | services/user-service/internal/repository/refresh_token_repository.go:49-59 | revokes every record of the user and touches no other |
| Auth.AuthService.Login | services/user-service/internal/service/auth_service.go:103-117 | outcome and store after a login, each error case included |
| Auth.AuthService.Refresh | services/user-service/internal/service/auth_service.go:119-165 | outcome and store after a refresh: parse, lookup, replay containment, expiry, user, revoke, issue |
| Auth.AuthService.Logout | services/user-service/internal/service/auth_service.go:167-187 | outcome and store after a logout |
| Auth.AuthService.IssueTokenPair | services/user-service/internal/service/auth_service.go:191-221 | signs the pair at one clock reading and stores the record at a later one; a failed insert leaves the store as it was |
| AuthRuns.RotationChains | services/user-service/internal/service/auth_service.go:119-187 | in every run records form disjoint chains, one per login, live at most at the last link; no token is refreshed twice |
| AuthRuns.NeverUnrevoked | services/user-service/internal/repository/refresh_token_repository.go:38-59 | over every run a revoked or deleted record never becomes live |
| AuthRuns.LoginIssues | services/user-service/internal/service/auth_service.go:103-117 | a login succeeds exactly for a known pair that can be stored; it adds one live record of its user with the right expiry, and each token of the pair parses exactly within its own lifetime, naming the user, and never as the other kind |
| AuthRuns.TokenWorksOnce | services/user-service/internal/service/auth_service.go:119-165 | a login's refresh token gives a new pair once; its second use ends every session of the user |
| AuthRuns.ReplayIsContained | services/user-service/internal/service/auth_service.go:132-145 | a replay leaves its user without live tokens and every other user's records as they were |
| AuthRuns.RefreshRotates | services/user-service/internal/service/auth_service.go:158-164 | a refresh succeeds exactly under the stated conditions, retires the presented record, adds one live record for the same user and answers with a pair good for that user and record |
| AuthRuns.RefreshRefuses | services/user-service/internal/service/auth_service.go:119-165 | without a pair the answer is an invalid token unless the storage failed, and the store changes only on replay or a failed insert |
| AuthRuns.LogoutAnswersAlike | services/user-service/internal/service/auth_service.go:167-187 | a logout answers alike whatever is presented; only a failing storage shows |
| AuthRuns.ParsesIffOwn | shared/jwtx/jwtx.go:62-79 | exactly the tokens signed under the secret, of the kind asked for and not expired parse, to their own claims |
| AuthRuns.LogoutRevokesOne | services/user-service/internal/service/auth_service.go:167-187 | logging out revokes the presented record alone |
| AuthRuns.ExpiryCheckIsRedundant | services/user-service/internal/service/auth_service.go:146-148 | with one clock reading the explicit expiry check never fires |
| AuthRuns.WholeSecondBeforeMilli | shared/jwtx/jwtx.go:47-60 | the token's whole-second expiry never exceeds the stored millisecond expiry computed after it |
| AuthReaping.ReapingIsUnobservable | services/user-service/internal/repository/mongo.go:57-60 | simulation: deleting expired records at arbitrary moments changes no outcome of any run |
| AuthReaping.ReapingFromTheStart | services/user-service/internal/repository/mongo.go:57-60 | the same from an empty collection |
| ApiClient.Api.Fetch | frontend/lib/api.ts:169-173 | starts a call with its first request |
| ApiClient.Api.TryRefresh | frontend/lib/api.ts:132-155 | joins the pending refresh, or starts one with the stored token, or fails without a token |
| ApiClient.Api.OnAnswer | frontend/lib/api.ts:173-188 | only an authenticated 401 goes on to refresh |
| ApiClient.Api.OnSettled | frontend/lib/api.ts:144-161 | one settlement resumes every waiting call, stores or clears the tokens and frees the slot |
| ApiClient.Api.OnRetryAnswer | frontend/lib/api.ts:177-200 | the retry is the last request of a call |
| ApiClient.Api.ClearTokens | frontend/lib/auth-context.tsx:57-77 | logging out drops the stored refresh token, whatever the server answered |
| ApiClient.Api.Reload | frontend/lib/api.ts:73-77 | a navigation loses the pending refresh and the waiting calls and keeps the stored token |
| ApiClientRuns.SingleFlight | frontend/lib/api.ts:128-188 | any interleaving with logouts and reloads in one tab: at most one refresh in flight, at most two requests per call, and a token sent twice exactly when one abandoned by a reload is sent again |
| ApiClientRuns.OnlyReloadsResend | frontend/lib/api.ts:128-162 | without reloads no refresh token is ever sent twice |
| ApiClientRuns.WaitingCallsGoOn | frontend/lib/api.ts:175-188 | over every run, when a refresh settles each waiting call gets its second request if a token came and ends if none did, and no other call changes |
| ApiClientRuns.NoCallWaitsAlone | frontend/lib/api.ts:132-161 | over every run a call waits only while a refresh is in flight |
| ApiClientRuns.FirstAnswerDecides | frontend/lib/api.ts:173-188 | the first answer ends a call unless it is a 401 that a pending or possible refresh may heal |
| ApiClientRuns.DroppedOnlyThen | frontend/lib/api.ts:177-195 | the stored token is dropped exactly by a logout here, a 401 that is not or no longer retried, or a failed refresh |
| ApiClientRuns.PastMeansWhatHappened | services/user-service/internal/service/auth_service.go:125-164 | the recorded past is what the steps of the run say: which tokens were spent, which lookups came after, which of those were checked |
| ApiClientRuns.ContainedIffOvertaken | services/user-service/internal/service/auth_service.go:125-164 | over every run the server contains a user exactly when a request is checked that was looked up after its token was logged out or rotated |
| ApiClientRuns.ContainedIffLogoutOvertakes | services/user-service/internal/service/auth_service.go:125-187 | unless an abandoned token is resent, exactly when the logout of a token precedes the lookup of the request carrying it and that request is checked |
| ApiClientRuns.NeverContained | services/user-service/internal/service/auth_service.go:125-164 | so without logouts and resent tokens never, even with the server's steps interleaved |
| ApiClientRuns.LogoutDuringRefreshIsContained | services/user-service/internal/service/auth_service.go:132-145 | a run in which a logout overtakes a refresh, without reloads |
| ApiClientRuns.ReloadDuringRefreshIsContained | frontend/lib/api.ts:128-137 | a run in which a reload makes the client resend a token, without logouts |
| ApiClientRuns.SharedTokenIsContained | frontend/lib/api.ts:128-133 | two requests with one token end in containment on some schedule: what the shared promise prevents |
| RateLimit.RateLimiter.Allow | shared/middleware/ratelimit.go:65-111 | the decision and the map after one request; non-positive settings disable the limiter |
| RateLimit.RateLimiter.Sweep | shared/middleware/ratelimit.go:79-90 | deletes exactly the entries idle for more than three minutes |
| RateLimitTraces.RequestKeepsEntry | shared/middleware/ratelimit.go:83-101 | every request, admitted or not, keeps its client's entry for exactly three minutes and leaves the others' as they are |
| RateLimitTraces.OthersDoNotMatter | shared/middleware/ratelimit.go:92-103 | under any limits a client's answers are those of the trace without the other clients' requests |
| RateLimitTraces.RefinesPrivateBuckets | shared/middleware/ratelimit.go:64-111 | when burst <= 180 * rate every trace gives each client its private bucket's answers, whatever others do |
| RateLimitTraces.AgreesIffRefilledWhenSwept | shared/middleware/ratelimit.go:74-90 | lazy creation and sweeping are invisible on every trace exactly when burst <= 180 * rate |
| RateLimitTraces.RateKeptIffRefilledWhenSwept | shared/middleware/ratelimit.go:49-52 | the promised bound on admissions holds on every trace exactly when burst <= 180 * rate |
| RateLimitTraces.SweptTooEarly | shared/middleware/ratelimit.go:79-90 | otherwise a trace admits more than burst plus the rate over the time between, which a private bucket would not |
| RateLimitTraces.AdmissionsInWindow | shared/middleware/ratelimit.go:49-52 | a private bucket admits at most burst plus rate times the elapsed time between any two requests |
| RateLimitTraces.LimiterAdmissions | shared/middleware/ratelimit.go:64-111 | the same bound for the limiter on every trace |
| RateLimitTraces.AdmittedIffNotExhausted | shared/middleware/ratelimit.go:49-52 | a private bucket's answers from the requests alone: admitted exactly when, counted from every earlier request, burst plus rate times the time leaves a whole token |
| RateLimitTraces.LimiterGrants | shared/middleware/ratelimit.go:64-111 | the same of the limiter on every trace: the promised rate is granted, and no more |
| Ledger.TransactionRepository.Create | services/expense-service/internal/repository/mongo_transaction.go:57-76 | appends the transaction under its new id, or nothing |
| Ledger.TransactionRepository.GetByIdForUser | services/expense-service/internal/repository/mongo_transaction.go:146-161 | the owner's transaction of that id, none exactly when there is none |
| Ledger.TransactionRepository.Update | services/expense-service/internal/repository/mongo_transaction.go:163-188 | replaces exactly the document of that id and owner |
| Ledger.TransactionRepository.DeleteByIdForUser | services/expense-service/internal/repository/mongo_transaction.go:190-203 | removes exactly that document |
| Ledger.Fetch | services/expense-service/internal/repository/mongo_transaction.go:131-138 | the cursor loop returns exactly the window given by skip and limit |
| Ledger.TransactionRepository.ListByUser | services/expense-service/internal/repository/mongo_transaction.go:78-144 | the clamped window of the filtered, newest-first list and the total count |
| Ledger.List | services/expense-service/internal/service/transaction_service.go:133-171 | the range check, and the same page however often the clamping is applied |
| Ledger.NewestFirstSorts | services/expense-service/internal/repository/mongo_transaction.go:120-123 | the sort is by descending date and neither loses nor invents a transaction |
| Ledger.SelectedAreTheMatching | services/expense-service/internal/repository/mongo_transaction.go:78-97 | a query selects, as often as stored, the owner's transactions meeting each given condition on account, category and range |
| Ledger.ClampedValues | services/expense-service/internal/service/transaction_service.go:138-148 | sizes 1 to 100 are kept, smaller become 20, larger 100; pages count from 1 |
| Spending.FindCategoryIdByName | services/budget-service/internal/client/expense_client.go:127-148 | the first category whose name matches, none exactly when none does |
| Spending.AddPage | services/budget-service/internal/client/expense_client.go:188-192 | adds the expenses of a page, and nothing of its income |
| Spending.FetchPage | services/budget-service/internal/client/expense_client.go:170-186 | page p is the p-th stretch of one hundred of the same listing, or an error |
| Spending.PageIsNextStretch | services/budget-service/internal/client/expense_client.go:194-197 | a page extends the part already summed, and a short page ends the listing |
| Spending.SumPages | services/budget-service/internal/client/expense_client.go:169-201 | the page loop succeeds exactly when the pages it needs arrive, and totals the first 5000 matches |
| Spending.SumExpensesByCategory | services/budget-service/internal/client/expense_client.go:160-202 | the whole lookup: category errors, unknown category as zero, otherwise the capped total |
| Spending.SortKeepsTotal | services/expense-service/internal/repository/mongo_transaction.go:120-123 | sorting does not change the total |
| Spending.SelectionTotal | services/expense-service/internal/repository/mongo_transaction.go:78-97 | the total of the selected transactions is the direct sum over all |
| Spending.PagedIsDirect | services/budget-service/internal/client/expense_client.go:168-201 | up to 5000 matches the paged sum is one fold over the unfiltered, unsorted collection |
| Spending.CappedIffNothingOmitted | services/budget-service/internal/client/expense_client.go:30-34 | at any size the capped sum is at most the direct one, and equal exactly when no transaction beyond the first 5000 is an expense |
| Spending.OmittedAreOldest | services/budget-service/internal/client/expense_client.go:30-34 | beyond the cap, no omitted transaction is newer than a counted one |
| Spending.TotalsStayExact | services/expense-service/internal/service/transaction_service.go:17-20 | every running total lies in 0..5*10^15, below 2^53, and is whole if the amounts are |
| PeriodSpending.OverspentIffExpensesExceed | services/budget-service/internal/service/overspend_service.go:60-75 | calendar, paging and decision together: overspent exactly when the period's expenses in the category exceed the amount |
| PeriodSpending.LaterEndAdds | services/budget-service/internal/client/expense_client.go:172-173 | a later end of the range never lowers the sum of expenses, and keeps it exactly when no expense lies in between |
| PeriodSpending.AllCountedIffNoneInProgress | services/budget-service/internal/client/expense_client.go:160-202 | the sum over [period start, now] is at most the period's expenses up to now, and all of them exactly when none is dated in the second in progress, within the cap |
| PeriodSpending.MissedIffOverInProgress | services/budget-service/internal/service/overspend_service.go:60-75 | what detection finds is exceeded; it misses an exceeded budget exactly when the expenses up to the last whole second are within it, within the cap |
| PeriodSpending.OwnDeliveryMissesIt | services/budget-service/internal/service/overspend_service.go:60-75 | at every instant that is no whole second: an expense dated then, alone exceeding a budget, leaves its own delivery quiet |
| PeriodSpending.LaterDeliveryFindsIt | services/budget-service/internal/service/overspend_service.go:60-75 | a delivery of the same period after that second finds what was missed, within the cap |
| PeriodSpending.ReportLineIsLedger | services/budget-service/internal/service/report_service.go:53-65 | a report line over any range names its budget and states its amount, the category's expenses in the range's whole seconds and the difference, within the cap |
| PeriodSpending.DetectionAgreesWithReport | services/budget-service/internal/service/report_service.go:36-70 | with both going through the paged sum over one ledger, detection at now agrees with a report taken any time in the same second |
| PeriodSpending.UnknownCategoryNeverOverspends | services/budget-service/internal/client/expense_client.go:165-167 | a budget whose category the user lacks is never overspent |
| PeriodSpending.OverspentPersists | services/budget-service/internal/service/overspend_service.go:60-75 | within a period, adding transactions never takes an overspent budget back |
| Text.TrimFinds | services/expense-service/internal/service/transaction_import.go:207 | trimming finds the core whatever blanks surround it |
| AmountText.AmountRoundTrip | services/expense-service/internal/service/transaction_import.go:201-231 | any cents, with a sign and with currency signs, commas, spaces and blanks anywhere, reads back as the same value |
| AmountText.ParenthesisedRoundTrip | services/expense-service/internal/service/transaction_import.go:212-229 | outermost parentheses give the negative of the magnitude, whatever sign is inside |
| AmountText.StatementRoundTrip | services/expense-service/internal/service/transaction_import.go:201-231 | text with grouped thousands, plain or parenthesised, reads back |
| AmountText.StatementUndecorated | services/expense-service/internal/service/transaction_import.go:218 | stripping grouped text leaves the plain printing |
| AmountText.DecimalRoundTrip | services/expense-service/internal/service/transaction_import.go:206-231 | every plain decimal, with any number of digits after the point or none and an optional sign, reads as itself |
| AmountText.LiteralIsDecimal | services/expense-service/internal/service/transaction_import.go:223 | nothing but a sign, digits and perhaps a point and digits is read as a literal, and as what it denotes |
| AmountText.RefusalTells | services/expense-service/internal/service/transaction_import.go:208-226 | an amount is required exactly when nothing is left inside, and every other refusal names the text |
| AmountText.ReadIsFlatInside | services/expense-service/internal/service/transaction_import.go:206-231 | whatever is read holds no parenthesis inside the outermost pair of the trimmed text |
| AmountText.ParenthesesReadIffOutermost | services/expense-service/internal/service/transaction_import.go:206-231 | printed cents with decorations and parentheses anywhere read exactly when no parenthesis but an outermost pair occurs, negative with it and signed without |
| AmountText.SymbolOutsideParentheses | services/expense-service/internal/service/transaction_import.go:213-226 | a currency sign before the parenthesis makes the amount unreadable, whatever is inside |
| ImportDates.ReadPrinted | services/expense-service/internal/service/transaction_import.go:187-199 | for every unambiguous layout, reading what was printed gives back the printed fields |
| ImportDates.LayoutTexts | services/expense-service/internal/service/transaction_import.go:35-44 | the three layouts spelled out: year-month-day, month/day/year padded, the same unpadded |
| ImportDates.PaddedReadsIffPrinted | services/expense-service/internal/service/transaction_import.go:193-197 | in the padded layouts a text names a day exactly when it is that day's printing |
| ImportDates.ShortReadsOnlyPrinted | services/expense-service/internal/service/transaction_import.go:193-197 | in the unpadded layout only zeros in front of month and day may differ from the printing |
| ImportDates.UsAgreesWithShort | services/expense-service/internal/service/transaction_import.go:39-44 | a date two layouts accept is the same day in both, so their order is harmless |
| ImportDates.DateRoundTrip | services/expense-service/internal/service/transaction_import.go:187-199 | every day of the years 0 to 9999 in any of the three date layouts imports as its midnight |
| ImportDates.ImpossibleDayRefused | services/expense-service/internal/service/transaction_import.go:193-197 | a day that does not exist is refused |
| ImportColumns.IndexColumns | services/expense-service/internal/handler/transaction_import.go:106-109 | the map the header loop builds |
| ImportColumns.ReadRows | services/expense-service/internal/handler/transaction_import.go:124-146 | one row per record, or an error when any record is malformed |
| ImportColumns.ParseImportCsv | services/expense-service/internal/handler/transaction_import.go:94-147 | the rows of a file, or which of the four complaints it gets |
| ImportColumns.ColumnIsLastOfFirst | services/expense-service/internal/handler/transaction_import.go:106-109 | a field is read from the last column under the first alias present |
| ImportColumns.SpellingsOfName | services/expense-service/internal/handler/transaction_import.go:149-151 | blanks around a header name and the case of its letters do not matter |
| ImportColumns.FieldsReadTheirNames | services/expense-service/internal/handler/transaction_import.go:32-39 | amount, debit, credit and type are each read under their own name and no other |
| ImportColumns.FieldsReadFirstNames | services/expense-service/internal/handler/transaction_import.go:32-39 | date and description are read under the first of their names that the header has |
| ImportColumns.HeaderComplaints | services/expense-service/internal/handler/transaction_import.go:111-120 | which headers are refused for want of a date column, and which for want of any amount column |
| ImportColumns.LayoutIndependentIff | services/expense-service/internal/handler/transaction_import.go:106-145 | moving columns never changes the result exactly when no name a field is read from is used twice |
| ImportColumns.DistinctNamesSuffice | services/expense-service/internal/handler/transaction_import.go:106-145 | distinct normalised names make any permutation of the columns invisible |
| ImportColumns.ShortIsPadded | services/expense-service/internal/handler/transaction_import.go:162-167 | a short record reads as if padded with empty cells |
| Import.AppendImportError | services/expense-service/internal/service/transaction_import.go:236-240 | the list stays the first twenty of all failures |
| Import.EveryRowCounted | services/expense-service/internal/service/transaction_import.go:77-93 | imported plus skipped is the number of rows |
| Import.FailuresAreTheFailingRows | services/expense-service/internal/service/transaction_import.go:77-93 | the failures are the failing rows, each once, in order, numbered from 2, with their own reason |
| Import.ListedErrorsComeFirst | services/expense-service/internal/service/transaction_import.go:236-240 | a failing row is unlisted only when twenty listed failures precede it |
| Import.StoredAreTheAcceptedRows | services/expense-service/internal/service/transaction_import.go:77-93 | what is stored is the accepted rows' transactions, in order, under their own new ids and for the caller |
| Import.ResolvedAmount | services/expense-service/internal/service/transaction_import.go:147-185 | in both column shapes the resolved amount is the row's value without its sign and the type is its sign |
| Import.SignKeptIffTypeAgrees | services/expense-service/internal/service/transaction_import.go:114-127 | a stored row keeps its signed value exactly when its type column does not contradict the sign |
| Import.RefusedBecause | services/expense-service/internal/service/transaction_import.go:103-185 | each reason for refusing a row, and the cell that gives it |
| Import.SignedTotalKept | services/expense-service/internal/service/transaction_import.go:103-185 | the signed total of what is stored is the statement's total over the accepted rows |
| Import.LineResolves | services/expense-service/internal/service/transaction_import.go:147-185 | printed cells resolve to the amount column if filled, else a non-zero debit as expense, else the credit as income |
| Import.StatementRowImports | services/expense-service/internal/service/transaction_import.go:103-145 | a line printed with cents in either column shape and a date in any layout imports into the account as that value on that day, with its description cut to a thousand and no category |
| Transactions.TransactionService.Create | services/expense-service/internal/service/transaction_service.go:94-131 | the outcome in every error case, the stored document and the queued event |
| Transactions.TransactionService.PublishCreated | services/expense-service/internal/events/publisher.go:32-51 | the queued row names the transaction; a failed enqueue queues nothing |
| Transactions.TransactionService.ImportRowAt | services/expense-service/internal/service/transaction_import.go:80-92 | one row is built, stored and announced, or fails for its reason |
| Transactions.TransactionService.ImportRows | services/expense-service/internal/service/transaction_import.go:77-95 | the loop stores the accepted rows, announces those it can and counts every row |
| Transactions.TransactionService.Import | services/expense-service/internal/service/transaction_import.go:50-96 | validation first, and nothing stored when it fails |
| Transactions.TransactionService.Update | services/expense-service/internal/service/transaction_service.go:177-216 | validates like Create and replaces the one document |
| Transactions.TransactionService.Delete | services/expense-service/internal/service/transaction_service.go:218-220 | removes the one document or says it is missing |
| Transactions.NothingForeignIsReferenced | services/expense-service/internal/service/transaction_service.go:98-111 | no transaction is created against, or moved to, an account or category that was not found for its owner |
| LedgerLaws.CreateRecordsInput | services/expense-service/internal/service/transaction_service.go:72-131 | Create succeeds exactly on the listed inputs and stores each field of the input for the caller; the kind is read by its exact text |
| LedgerLaws.EditRecordsInput | services/expense-service/internal/service/transaction_service.go:203-210 | an edit keeps id and owner and records the input |
| LedgerLaws.EventTellsTransaction | services/expense-service/internal/events/publisher.go:33-50 | the event tells every field of the stored transaction, its date to the second |
| LedgerLaws.CreateAddsExpense | services/expense-service/internal/service/transaction_service.go:114-130 | a creation adds its amount to its owner's expenses in its category and range exactly when its type is expense, and changes no other sum |
| LedgerLaws.UpdateMovesExpense | services/expense-service/internal/service/transaction_service.go:203-215 | an edit takes the old share out of every sum and puts the input's in |
| LedgerLaws.DeleteRemovesShare | services/expense-service/internal/repository/mongo_transaction.go:190-203 | a deletion takes exactly the deleted document's share out of every sum |
| LedgerLaws.ImportsCountAgainstNoBudget | services/expense-service/internal/service/transaction_import.go:134-144 | imported transactions carry no category, so an import changes no category's expenses |
| TransactionRuns.EventsMirrorTheLedger | services/expense-service/internal/service/transaction_service.go:50-68 | after every run of creates, imports, edits, deletions, crashes and relay marks the outbox holds, in order, exactly the events of the inserts whose enqueue succeeded, and every stored amount is in range |
| TransactionRuns.OneEventPerTransaction | services/expense-service/internal/events/publisher.go:46-50 | no two events share an id, each names a transaction stored before it, and they are one to one exactly when no enqueue failed |
| TransactionRuns.WithoutDeletionsNothingIsLost | services/expense-service/internal/service/transaction_service.go:94-131 | without deletions the collection is, id by id, what was inserted |
| TransactionRuns.RunsKeepTotalsExact | services/expense-service/internal/service/transaction_service.go:17-20 | every run leaves a ledger whose category totals stay in float64's exact whole numbers |

## Left out

* HTTP handlers, routers, envelopes, logging, health checks, configuration, deployment files and the React pages: plumbing without a hard property.
* MongoDB, NATS, bcrypt, SHA-256, JWT signatures and CSV quoting: taken at their contracts. Hashing is injective, a CSV file is a sequence of records, one of which may be malformed.
* Registration, password reset, settings, accounts, categories, goals, notifications and the gateway's route table: they would only add easy members. Accounts and categories are read through `Transactions.Directory`, any function of id and owner.
* float64 rounding: amounts are exact reals. NaN would pass the amount ceiling as written; it is outside the model.
* Numbers `ParseFloat` accepts besides plain decimals (exponents, hexadecimal) and RFC 3339 parsing are parameters of `Text.Library`; infinities and overflow are not modelled.
* Case folding: lower case is an arbitrary map on single code points, and name matching in `Spending` an arbitrary relation.
* Strings are code points: the importer cuts a note at 1000 bytes, the model at 1000 code points.
* Equal dates: the ledger's sort leaves their order open; the model fixes insertion order.
* One sum reads one snapshot: transactions created between two page requests are not modelled.
* 64-bit overflow of the number of rows to skip on absurdly large page numbers.
* Two handlings of one budget at the same time: the comment at `overspend_service.go:95-99` accepts that race; handlings and edits are atomic here.
* One clock reading per step: the limiter reads it twice in one request, and `currentPeriodStart` is given UTC instants.
* Multiple browser tabs: `frontend/README.md` disclaims them. `ApiClientRuns` has one user, and a logout is one atomic step of its server.
* The stream's thirty-day retention, and subjects of other producers in the same stream.
* Fairness: nothing says that a relay or the broker keeps trying, so no event is proved to arrive eventually.
* Created and updated timestamps, and the access token's email claim.
- OverspendRuns.OncePerPeriod: assumes that edits keep the cadence and marks persist; OverspendRepeats states exactly when the result holds without either.
