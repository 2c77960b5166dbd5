# BizEngine: verified models of its state machines, ledgers and arithmetic

This project models the parts of BizEngine (a multi-tenant business backend written in Go) that keep state under rules:
box placement, the rate limiter and the idempotency middleware, the double-entry ledger, event-sourced entities, the
warehouse with its reservations and costs, orders, delivery routes, price rules, money printing, and the process engine
with its definition validator. Run `dafny verify dfyconfig.toml` to check everything.

## How the model is built

Code that changes things step by step is a class or a method with loops. Tables are fields: a map or sequence per table.
Each service has

- a value `Tables` holding what its tables hold, and `View()`, which reads the fields as such a value;
- `Refusal(t, op)`, the error a call is refused with, and `After(t, op)`, the tables after it;
- one method per service call, proved to return that error and to leave exactly those tables, loops included;
- lemmas about `Run(t, ops)`, the tables after any sequence of calls with any arguments, refused calls included.

So a statement about `Run` is a statement about every history of the service.

Modules: `Space`, `RateLimit`, `Idempotency`, `Ledger` with `LedgerReports`, `LedgerTrial`, `LedgerPeriods`,
`LedgerProfit` and `LedgerChart`, `Entities` with `EntityCalls`, `Stock` with `StockCalls`, `StockLedger`, `StockRuns`,
`Reservations` and `Costing`, `Orders`, `Fulfilment`, `Logistics`, `Catalog`, `Money`, `Dsl`, `Process`; `Common` holds
rounding and accumulation facts.

Besides the theorems on runs, each service has lemmas that say what a single call does in terms independent of `Refusal`
and `After`: exactly when it is accepted, what a refusal means, what it stores and what it leaves alone.

Conventions:

- Coordinates, stock quantities and quantities in orders are exact reals; money is in whole kopecks. `math.Round` rounds
  halves away from zero. Money amounts are unbounded integers, except in `Money`, where the 64-bit width is the point.
- A service call is one atomic step. The rate limiter and the idempotency middleware interleave: every use of the shared
  map or of Redis is a step of its own.
- Fresh UUIDs are counters, dates are year, month and day, and the clock is a parameter of the calls that read it.
- Answers from code outside the model are parameters: whether a condition of a process holds for an event, whether the
  customer lookup accepts an order, whether a transaction commits and whether the bus could store an event.

## What was found to hold less than it seems

- Net profit equals the balance-sheet total only up to lines booked on accounts of other organizations, because entry
  checks that an account exists, not whose it is (`LedgerReports.ForeignAccountBreaksIdentity`). The exact difference is
  part of `LedgerReports.AccountingIdentity`.
- The trial balance shows unposted and later lines, because its join to the posted transactions is a left one
  (internal/storage/postgres/finance_repo.go:356-357, `LedgerTrial.UnpostedSaleShows`); `LedgerTrial.RowIsRight` says
  exactly when a row is right.
- Posting ignores the period, so a closed month's records are frozen exactly when all are posted
  (`LedgerPeriods.RecordsFrozenIffPosted`), and so are its balances (`LedgerPeriods.BalancesFrozenIffPosted`); its profit
  and loss report is frozen exactly when no unposted transaction moves a revenue or expense account
  (`LedgerProfit.ReportFrozenIffHarmless`, `LedgerProfit.EarlyCloseFreezesNothing`).
- The promise of replay to any point in time (README.md:15 of the repository) holds for kind, name, status, sort order, the
  deleted flag and component data as long as no event is lost. Two things lose one: a component removal that the bus
  cannot store, and an update or deletion whose transaction fails, since the row is written on the pool and not in the
  transaction (internal/core/entity/service.go:269-273 and 303-307, internal/storage/postgres/entity_repo.go:174-205).
  `Entities.CallStaysSynced` is exact; `Entities.LostRemovalShows` and `Entities.LostDeletionShows` are such runs. The log
  determines parent and meta only once an update names them, or if nothing older could be the parent
  (`Entities.LogDeterminesLinks`).
- An applied stocktaking is exact exactly when nothing moved in between (`StockLedger.ApplyIsExact`,
  `StockRuns.MovedStocktakingLosesJournal`), and a negative count makes a level negative
  (`StockLedger.ApplyStaysNonnegative`, `StockRuns.NegativeCountGoesThrough`). An adjustment can go below what is reserved
  (`StockLedger.AdjustmentCovers`, `StockRuns.AdjustmentUncovers`).
- An order that repeats a product can pass the availability check and still lose a line
  (`Reservations.RepeatedProductSlipsThrough`). Cancelling such an order, or a draft or new one, eats other orders'
  reservations (`Reservations.SkippedLineEatsReservations`, `Reservations.CancelWithoutReservation`);
  `Reservations.CancelRestores` says exactly when it does not.
- Refunds are not accumulated: refunds of any multiple of an order's subtotal are reachable
  (`Orders.RefundsExceedSubtotal`).
- The average cost can leave the range of receipt costs, which happens for some costs exactly when the first two receipts
  bring less than one unit together (`Costing.RangeKeptExactly`).
- A price rule's time window compares texts, so one past midnight never applies, and neither does one written without
  leading zeros such as 9:00 to 9:30 (`Catalog.NightWindowIsNeverMet`, `Catalog.UnpaddedWindowIsNeverMet`);
  `Catalog.WindowIsMet` is exact.
- The limiter lets one request pass even at a rate of 0, and 2 * rate - 1 requests can pass within one window's length
  (`RateLimit.BoundIsReached`).
- The least 64-bit amount prints with two minus signs (`Money.LeastAmountUnreadable`).
- A process whose initial state is terminal starts active and stays so (`Process.TerminalStartStaysActive`).
- A definition saved anew can leave running instances in states it does not declare; what holds for every history is in
  `Process.RunsAreExplained`.
- Definitions are looked up by id although they are registered by trigger, so two definitions with one id may take turns
  (`Process.SharedIdMixesDefinitions`); with unique ids one definition explains the whole history.
- The bounds handler checks one page of siblings; `Space.PartialSiblingCheck` says exactly when that is enough.

## Model

| member | source | states |
|---|---|---|
| Space.ValidatePlacement | internal/module/space/collision.go:36-66 | the placement is accepted exactly when its box is valid, lies in the parent's bounds if there are any, and no sibling of another id intersects it; otherwise the first violated check is reported, and a collision names the first sibling hit |
| Space.IntersectsMeansSharedInterior | internal/module/space/types.go:37-47 | for valid boxes the six comparisons hold if and only if some point lies strictly inside both |
| Space.ContainsInteriors | internal/module/space/types.go:31-54 | a box is valid if and only if it has an interior point, and one valid box contains another if and only if it surrounds all of its interior |
| Space.VolumeCountsCells | internal/module/space/types.go:16-27 | a box with whole sides has as many unit cells as its volume says |
| Space.FindCollisions | internal/module/space/collision.go:69-79 | exactly the index pairs i < j of intersecting boxes are reported, each once and in order |
| Space.PackingBound | internal/module/space/collision.go:36-79 | any run of placing and re-placing boxes, each accepted against all others of the parent, leaves no collision for FindCollisions and a total volume of at most the parent's, over real coordinates |
| Space.PartialSiblingCheck | internal/api/rest/handler_entity.go:228-250 | an acceptance against part of the siblings keeps the arrangement collision free if and only if no sibling left out is hit |
| Space.UncutBound | internal/module/space/types.go:26-54 | boxes inside an outer box whose faces all lie on its faces have a total volume of at most its volume when none overlap |
| Space.CutX | internal/module/space/types.go:26-54 | cutting separate boxes and their container along face planes preserves volume and separation, so the container's volume bounds the boxes' total |
| RateLimit.RateLimiter.Allow | internal/api/rest/ratelimit.go:33-45 | a key without an open window gets a new one and passes; otherwise the count rises by one even past the rate and the request passes while the count is within it; other keys are untouched |
| RateLimit.RateLimiter.Cleanup | internal/api/rest/ratelimit.go:47-59 | a sweep removes exactly the visitors whose window is over |
| RateLimit.SweepLeavesOpen | internal/api/rest/ratelimit.go:47-59 | after a sweep exactly the visitors are left whose window is not over, as they were |
| RateLimit.SweepsAreInvisible | internal/api/rest/ratelimit.go:33-59 | under a monotone clock, any interleaving of sweeps gives the same answers as no sweep at all |
| RateLimit.OpenWindowPasses | internal/api/rest/ratelimit.go:33-45 | inside an open window exactly the first requests up to what is left of the rate pass |
| RateLimit.WindowPasses | internal/api/rest/ratelimit.go:33-45 | from the request that opens a window to its end exactly the smaller of max(rate, 1) and the number asked pass |
| RateLimit.TwoWindows | internal/api/rest/ratelimit.go:33-45 | in an interval of window length at most the open window's rest and one further quota pass |
| RateLimit.RateBound | internal/api/rest/ratelimit.go:33-59 | for every key, run, sweep schedule and closed interval of window length at most 2 * max(rate, 1) - 1 requests pass |
| RateLimit.BoundIsReached | internal/api/rest/ratelimit.go:33-45 | for every rate and window from 1 on, a run passes exactly 2 * rate - 1 requests in such an interval, so the bound is tight |
| Idempotency.KeysAreInjective | internal/api/rest/idempotency.go:31-32 | two requests share a Redis key only if they agree on organization and idempotency value |
| Idempotency.KeyText | internal/api/rest/idempotency.go:21-32 | the key is idemp, organization and value, separated by colons |
| Idempotency.Redis.SetNX | internal/api/rest/idempotency.go:35-36 | the marker is written exactly when no live entry is there |
| Idempotency.Redis.Get | internal/api/rest/idempotency.go:45 | an expired entry reads as missing |
| Idempotency.Redis.Set | internal/api/rest/idempotency.go:79 | the entry is replaced and its lifetime starts again |
| Idempotency.ResponseCapture.constructor | internal/api/rest/idempotency.go:70-74 | a handler that says nothing counts as status 200 with an empty body |
| Idempotency.ResponseCapture.Write | internal/api/rest/idempotency.go:99-102 | bodies accumulate in order, the status stays |
| Idempotency.Middleware.Begin | internal/api/rest/idempotency.go:35-43 | the handler runs exactly when the key was free, and then the request holds the key's lease |
| Idempotency.Middleware.Replay | internal/api/rest/idempotency.go:43-67 | a cached body is replayed as stored; a marker or a missing entry gives the 429 answer |
| Idempotency.Middleware.HandlerReturned | internal/api/rest/idempotency.go:75 | the run has ended with the captured status and body |
| Idempotency.Middleware.Store | internal/api/rest/idempotency.go:77-83 | a 2xx body is cached for a full lifetime, any other answer frees the key |
| Idempotency.AnswerDecidesRetry | internal/api/rest/idempotency.go:77-83 | after a 2xx answer its body is kept for five seconds; after any other the next request with the key runs |
| Idempotency.LookupAnswers | internal/api/rest/idempotency.go:43-67 | a request that found its key taken gets the stored body while it lives, and is told to wait while there is none |
| Idempotency.ReplayedBodiesAreReal | internal/api/rest/idempotency.go:22-86 | in every interleaving, with no timing assumption, a replayed body is the body of an earlier 2xx run under the same key |
| Idempotency.RunsNeverOverlap | internal/api/rest/idempotency.go:22-86 | if entries outlive the runs that hold them, then whenever a run starts every earlier run under its key has ended |
| Idempotency.CachedAnswersHoldBackRuns | internal/api/rest/idempotency.go:75-83 | under that assumption, between the end of a 2xx run and the next start under its key the answer was cached and its lifetime has passed |
| Idempotency.NoRunWhileCached | internal/api/rest/idempotency.go:77-83 | under that assumption no run starts under a key until a cached answer for it has expired |
| Idempotency.OverlapNeedsExpiry | internal/api/rest/idempotency.go:35-43 | beside a run still going a second one starts if and only if the first one's entry has expired |
| Idempotency.TimelyRunsAreGuarded | internal/api/rest/idempotency.go:22-86 | every timely interleaving keeps one holder per key, ended runs and cached answers before new runs, and cached answers in the store |
| Idempotency.StepStaysExclusive | internal/api/rest/idempotency.go:35-83 | each step keeps held keys marked with the holder's own lease and held by one request |
| Ledger.FinanceService.SeedAccounts | internal/module/finance/service.go:28-47 | all eleven system accounts are created, or none if one of the codes is taken |
| Ledger.FinanceService.AddAccount | internal/module/finance/service.go:50-83 | code, name and type are checked in that order, then uniqueness of the code in the organization and existence of the parent |
| Ledger.FinanceService.RemoveAccount | internal/module/finance/service.go:91-107 | system accounts, accounts with own lines and accounts still referenced stay; otherwise exactly this account goes |
| Ledger.FinanceService.CheckLines | internal/module/finance/service.go:129-146 | accepted if and only if every line is a nonnegative debit or credit but not both or neither, and the debits equal the credits |
| Ledger.FinanceService.EnterTransaction | internal/module/finance/service.go:110-191 | a refused entry changes nothing; an accepted one adds one unposted transaction and exactly its lines |
| Ledger.FinanceService.Post | internal/module/finance/service.go:214-234 | only the posted flag of this organization's transaction changes, once, in whatever period it is dated |
| Ledger.FinanceService.AutoPost | internal/module/finance/service.go:305-329 | both accounts are found by code, then one posted two-line transaction is added or nothing changes |
| Ledger.FinanceService.IsPeriodOpen | internal/module/finance/service.go:398-405 | a month is open unless its period row says closed |
| Ledger.FinanceService.Close | internal/module/finance/service.go:332-367 | only an open month from 1 to 12 can be closed; no other month changes |
| Ledger.FinanceService.Reopen | internal/module/finance/service.go:370-390 | only a closed month can be reopened; no other month changes |
| Ledger.FinanceService.RecordCash | internal/module/finance/service.go:435-501 | the cash row is kept even when the posting is refused; withdrawals swap the sides and a cash counterpart becomes account 91 |
| LedgerReports.GetProfitAndLoss | internal/module/finance/service.go:408-432 | revenue and expense totals are summed over the rows with a nonzero amount, and net profit is their difference |
| LedgerReports.ReportShowsBothTotals | internal/module/finance/service.go:408-432 | for every organization and range total revenue is what the revenue accounts got net on their credit side, total expense what the expense accounts got net on their debit side |
| LedgerReports.TotalsByType | internal/storage/postgres/finance_repo.go:449-476 | the same for any selection of lines, dropped zero rows included |
| LedgerReports.RowsAreAccounts | internal/storage/postgres/finance_repo.go:449-476 | the rows are exactly the revenue and expense accounts of the organization with a nonzero balance, revenue counted from the credit side |
| LedgerReports.CallKeepsSound | internal/module/finance/service.go:28-501 | every call keeps ids unique, lines attached to accounts and transactions, and every selection of whole transactions balanced |
| LedgerReports.RunKeepsSound | internal/module/finance/service.go:28-501 | the same along every run |
| LedgerReports.RunStaysWellKept | internal/module/finance/service.go:129-146 | in every reachable ledger each line has exactly one positive side and each transaction a line |
| LedgerReports.PickingMore | internal/storage/postgres/finance_repo.go:380-395 | covering more transactions changes an account's debits or credits exactly when one of the added ones has a line on it |
| LedgerReports.RegroupByAccount | internal/storage/postgres/finance_repo.go:350-395 | summed account by account, lines give the same net as summed one by one, up to lines on foreign accounts |
| LedgerReports.SplitByType | internal/storage/postgres/finance_repo.go:449-476 | the net over all account types is the balance-sheet net minus revenue plus expense as the report shows them, dropped zero rows included |
| LedgerReports.AccountingIdentity | internal/storage/postgres/finance_repo.go:380-476 | in every reachable ledger, for every organization and date range, net profit is the sum of GetAccountBalance over all asset, liability and equity accounts plus the net of lines on foreign accounts |
| LedgerReports.HomeAccountingIdentity | internal/module/finance/service.go:129-146 | when every entry names accounts of its own organization, net profit equals that sum exactly |
| LedgerTrial.JoinKeepsEveryLine | internal/storage/postgres/finance_repo.go:353-359 | the left join to posted transactions up to the date returns every line exactly once, whatever the date and whatever is posted |
| LedgerTrial.TrialBalanceBalances | internal/storage/postgres/finance_repo.go:350-377 | trial-balance debits minus credits are minus the net of lines on foreign accounts for any date, hence equal when entries stay home |
| LedgerTrial.RowIsRight | internal/storage/postgres/finance_repo.go:350-377 | in every reachable ledger an account's row shows the debits and credits posted up to the date if and only if no line of the organization on that account belongs to an unposted or later transaction |
| LedgerTrial.UnpostedSaleShows | internal/storage/postgres/finance_repo.go:356-357 | a run after which nothing is posted and the trial balance shows a sale |
| LedgerReports.AnySelectionBalances | internal/module/finance/service.go:129-146 | for any set of whole transactions the net over all own accounts is minus the net of lines on foreign accounts |
| LedgerReports.ForeignAccountBreaksIdentity | internal/module/finance/service.go:159-180 | four calls after which profit and balances differ by 5, because one line is on another organization's account |
| LedgerReports.AutoPostingMovesAmount | internal/module/finance/service.go:305-329 | in any range around its date an accepted automatic posting adds the amount to the debits of the debited account and to the credits of the credited one, and moves no other total or balance |
| LedgerReports.CashOperationMovesCash | internal/module/finance/service.go:466-493 | a deposit raises and a withdrawal lowers the balance of account 50 by the amount, against the named account or, for cash itself, account 91, whenever both exist |
| LedgerChart.DefaultChart | internal/module/finance/repository.go:248-262 | a new organization gets eleven system accounts, with these codes and types |
| LedgerChart.RunKeepsChart | internal/module/finance/service.go:28-107 | in every run codes are unique within an organization and every parent account exists |
| LedgerChart.SystemAccountsStay | internal/module/finance/service.go:91-107 | no calls take a system account away or change it |
| LedgerChart.AccountCalls | internal/module/finance/service.go:50-107 | exactly when an account is added or deleted, with which refusal otherwise, and that no other account comes or goes |
| LedgerChart.EntryAcceptedExactly | internal/module/finance/service.go:110-191 | an entry is accepted if and only if its month is not closed and at least two lines, each with exactly one positive side, stand on existing accounts and add up to the same |
| LedgerChart.CashCalls | internal/module/finance/service.go:435-501 | a cash operation is kept if and only if it is a deposit or withdrawal of a positive amount in a month not closed; its counterpart is account 50 if none is named |
| LedgerChart.PeriodCalls | internal/module/finance/service.go:332-405 | closing and reopening are accepted exactly for open and closed months and turn that month alone |
| LedgerChart.ReopenedMonthAccepts | internal/module/finance/service.go:370-405 | after a reopening exactly those entries of the month are accepted that were refused for the period alone |
| LedgerPeriods.CallKeepsClosedMonth | internal/module/finance/service.go:120-127 | a call other than reopening leaves a closed month closed and its transactions and lines what they are, up to posting |
| LedgerPeriods.ClosedMonthKeepsBooks | internal/module/finance/service.go:332-405 | the same for any sequence of calls that never reopens the month |
| LedgerPeriods.BooksFrozenFromClose | internal/module/finance/service.go:332-367 | from an accepted close in any reachable ledger on, the month's books are those at closing |
| LedgerPeriods.RecordsFrozenIffPosted | internal/module/finance/service.go:214-234 | a closed month's transaction records are frozen under all calls short of reopening if and only if all of them are posted |
| LedgerPeriods.PostedFromMonth | internal/storage/postgres/finance_repo.go:380-395 | what the reports read for a range inside a month depends on that month's transactions and lines alone |
| LedgerPeriods.ReportsFrozen | internal/module/finance/service.go:408-432 | if all were posted, every account balance and the whole profit and loss report of any range in the month stay the same until reopening |
| LedgerPeriods.BalancesFrozenIffPosted | internal/module/finance/service.go:214-234 | in every reachable ledger all account balances of ranges in a closed month are frozen under all calls short of reopening if and only if all its transactions are posted |
| LedgerPeriods.PostingMovesBalance | internal/module/finance/service.go:214-234 | posting a transaction changes the debits or credits of some account on its date |
| LedgerProfit.ReportFrozenIffHarmless | internal/module/finance/service.go:408-432 | in every reachable ledger the profit and loss report of any range in a closed month is frozen under all calls short of reopening if and only if no unposted transaction of the month moves a revenue or expense account on balance |
| LedgerProfit.PostingMovesReport | internal/module/finance/service.go:214-234 | posting a transaction that moves such an account changes the report of its date |
| LedgerProfit.EarlyCloseFreezesNothing | internal/module/finance/service.go:332-367 | a run that closes a month before its sale is posted: balances and report of the closed month still change |
| Entities.EntityService.AppendTx | internal/storage/postgres/event_store.go:36-43 | the event is added at the end unless one with its id is stored |
| Entities.EntityService.Publish | internal/core/event/persistent_bus.go:24-33 | persisting an event whose id is stored adds nothing, and failing to persist adds nothing |
| Entities.EntityService.UpsertComponent | internal/storage/postgres/entity_repo.go:216-236 | a new component starts at version 1, an existing one gets the new data and the next version, others stay |
| Entities.EntityService.CreateEntity | internal/core/entity/service.go:33-80 | kind and name are required and the parent has to exist; one active entity and one event are stored, or neither when the transaction fails |
| Entities.EntityService.CreateEntityWithComponents | internal/core/entity/service.go:83-174 | in addition every component is set in order, with one event each; a failed transaction leaves nothing |
| Entities.EntityService.WriteEntity | internal/core/entity/service.go:33-80 | the row and its creation event are written together |
| Entities.EntityService.WriteComponents | internal/core/entity/service.go:127-159 | each listed component is set and its event appended, repeated types included |
| Entities.EntityService.UpdateEntity | internal/core/entity/service.go:223-280 | given fields are set and one event records them, leaving out name, status and sort order that stay the same; nothing to record means no event and no write; a parent that does not exist refuses the call; when the transaction fails the row stays changed without an event |
| Entities.EntityService.DeleteEntity | internal/core/entity/service.go:283-314 | a live entity is marked deleted with one event, and stays marked without one when the transaction fails; its components stay |
| Entities.EntityService.SetEntityComponent | internal/core/entity/service.go:317-363 | refused for a missing or deleted entity, otherwise one upsert and one event, or neither when the transaction fails |
| Entities.EntityService.DeleteEntityComponent | internal/core/entity/service.go:376-401 | the row goes at once; its event is stored only if the bus can persist it |
| Entities.CallsAppendOnce | internal/storage/postgres/event_store.go:25-43 | written with its rows and published afterwards, an event is stored once, as first written; a failed transaction stores none; a removal event is stored exactly when the bus persists it |
| Entities.EventIdsAreUnique | internal/storage/postgres/event_store.go:25-43 | in every run no event id is stored twice |
| Entities.CallStaysSynced | internal/core/entity/service.go:223-401 | a call keeps the live state equal to the replayed log if and only if it loses no event: no removal the bus cannot persist, and no deletion or change of name, status or sort order whose transaction fails after the row was written outside of it |
| Entities.RunStaysSynced | internal/core/entity/service.go:33-401 | the live state equals the replayed log at every moment of a run if and only if the run loses no event |
| Entities.LostRemovalShows | internal/core/entity/service.go:376-401 | a run whose replay still has a removed component, because the bus could not store the removal |
| Entities.LostDeletionShows | internal/core/entity/service.go:303-307 | a run whose replay does not know of a deletion, because its transaction failed after the row was written |
| Entities.ReplayToAnyPoint | internal/core/entity/service.go:33-401 | in every run that loses no event, the log after k calls is a prefix of the final log, and replaying it gives every entity's kind, name, status, sort order, deleted flag and component data at that moment |
| Entities.CallKeepsCounting | internal/storage/postgres/entity_repo.go:216-236 | a call keeps every version equal to its number of set events since the last removal event if and only if it does not lose a removal |
| Entities.VersionsCountSets | internal/storage/postgres/entity_repo.go:216-236 | at every moment of a run each component's version is its number of set events since its last removal event, if and only if the run loses no removal |
| EntityCalls.AcceptedExactly | internal/core/entity/service.go:33-401 | exactly when each call is accepted, and what each refusal means |
| EntityCalls.CreationIsStored | internal/core/entity/service.go:33-174 | a creation stores the entity as asked for, active and not deleted, or nothing when its transaction fails |
| EntityCalls.LastValueStays | internal/core/entity/service.go:127-159 | of several values for one component type the last one stays, and no other place is touched |
| EntityCalls.UpdateIsStored | internal/core/entity/service.go:223-280 | an accepted update leaves given fields as given and all others, and all other entities, as they were |
| EntityCalls.ComponentIsStored | internal/core/entity/service.go:283-401 | what setting, removing and deleting do to components and the entity, and that they touch nothing else |
| EntityCalls.EventsAreStored | internal/core/entity/service.go:33-401 | every accepted call that goes through and reaches the bus logs events with its time; creations, deletions and component calls log exactly what they did |
| EntityCalls.DeletionIsForGood | internal/core/entity/service.go:283-314 | from a deletion on, in every run, no calls change the entity or its components |
| Entities.CreationHidesParentAndMeta | internal/core/entity/service.go:33-80 | creations that differ in parent or meta leave equal logs and different entities |
| Entities.UpdatesRevealLinks | internal/core/entity/service.go:223-280 | in every run that loses no update of them, the last parent and meta that update events mention are the live ones |
| Entities.LogDeterminesLinks | internal/core/entity/service.go:33-80 | among runs that lose no update of them, the log determines an entity's parent if and only if an update event mentions it or no entity is older, and its meta if and only if an update event mentions it |
| Entities.OtherLink | internal/core/entity/service.go:33-80 | short of such an event, another run leaves the same log and differs in that meta, or has any older entity or none as that parent, and nothing else |
| Stock.Warehouse.ReceiveStock | internal/module/warehouse/service.go:93-168 | a positive quantity is added, a costed receipt sets the rounded weighted average, and one movement is recorded |
| Stock.Warehouse.ShipStock | internal/module/warehouse/service.go:171-237 | at most what is available leaves, reserved stock is taken along when there is enough of it, one movement |
| Stock.Warehouse.TransferStock | internal/module/warehouse/service.go:240-310 | the same quantity leaves one warehouse and reaches another one, under one movement |
| Stock.Warehouse.AdjustStock | internal/module/warehouse/service.go:313-371 | the level stands at the new quantity and the movement records the difference |
| Stock.Warehouse.ReserveStock | internal/module/warehouse/service.go:374-405 | only the reserved amount rises, within what is available |
| Stock.Warehouse.UnreserveStock | internal/module/warehouse/service.go:408-438 | only the reserved amount falls, not below zero |
| Stock.Warehouse.CheckAvailability | internal/module/warehouse/service.go:508-520 | accepted exactly when every line alone fits; otherwise the conflict names the product of the first line that does not, and whether its stock is missing or too low |
| Stock.Warehouse.StartStocktaking | internal/module/warehouse/service.go:523-573 | the sheet lists the warehouse's products with their current quantities, uncounted |
| Stock.Warehouse.CountProduct | internal/module/warehouse/service.go:576-613 | the item takes the count, negative or not, and its difference from the snapshot |
| Stock.Warehouse.ApplyStocktaking | internal/module/warehouse/service.go:648-730 | every item with a discrepancy is set to its count and books the snapshot discrepancy; uncounted items refuse the call |
| Stock.Warehouse.CancelStocktaking | internal/module/warehouse/service.go:733-755 | only an inventory in progress can be cancelled, and stock stays |
| StockCalls.ShipmentUsesReservation | internal/module/warehouse/service.go:171-237 | a shipment leaves what is available unchanged if and only if it can be taken out of the reserved amount in full; then it is, and otherwise nothing is |
| StockCalls.SlotAfterCall | internal/module/warehouse/service.go:93-438 | how each call moves quantity, reserved amount and cost at any slot, and where they stay |
| StockCalls.MovementAfterCall | internal/module/warehouse/service.go:93-438 | every accepted receipt, shipment, transfer and adjustment is booked as one movement with what was moved |
| StockCalls.AcceptedExactly | internal/module/warehouse/service.go:93-755 | exactly when each call is accepted, and what each refusal means |
| StockCalls.SheetAfterCall | internal/module/warehouse/service.go:523-613 | a fresh sheet snapshots the listed products; a count is noted at the first item for its product and nowhere else |
| StockCalls.SheetsEndOnce | internal/module/warehouse/service.go:576-755 | an applied or cancelled sheet can be neither counted nor applied nor cancelled |
| StockLedger.OtherCallsStayExplained | internal/module/warehouse/service.go:93-438 | every call but applying a sheet keeps each level equal to the signed sum of its movements |
| StockLedger.SettledEffect | internal/module/warehouse/service.go:676-710 | applying a sheet sets every listed product with a discrepancy to its count, adds the snapshot discrepancy to its journal, and touches no other slot |
| StockLedger.ApplyStaysExplained | internal/module/warehouse/service.go:676-710 | applying keeps levels equal to their journals if and only if every product with a discrepancy is still at its snapshot quantity |
| StockLedger.ApplyIsExact | internal/module/warehouse/service.go:676-710 | in addition all listed products end at their counts if and only if all are still at their snapshot quantities |
| StockLedger.JournalExplainsLevels | internal/module/warehouse/service.go:93-730 | from empty stock, in every run that applies sheets only with products unmoved, each quantity is the signed sum of its movements |
| StockLedger.StocktakingSession | internal/module/warehouse/service.go:523-730 | start, any calls moving no stock of that warehouse, apply: every listed product ends at its count and journals still explain all levels |
| StockLedger.TransferConserves | internal/module/warehouse/service.go:240-310 | a transfer keeps each product's total over any set of warehouses with both ends or neither |
| StockLedger.ApplyStaysNonnegative | internal/module/warehouse/service.go:576-604 | applying keeps levels nonnegative if and only if no count it books is negative |
| StockLedger.StockNeverNegative | internal/module/warehouse/service.go:171-438 | in every run with nonnegative counts no quantity or reserved amount is negative |
| StockLedger.ReservedIsCovered | internal/module/warehouse/service.go:171-438 | in every run whose adjustments and applied counts do not go below what is reserved at that moment, no more is ever reserved than is there |
| StockLedger.QuietRunsStayCovered | internal/module/warehouse/service.go:171-438 | in every run without adjustments and applied sheets no more is ever reserved than is there |
| StockLedger.AdjustmentCovers | internal/module/warehouse/service.go:313-371 | an adjustment keeps reservations covered if and only if it stays at or above the reserved amount |
| StockLedger.ApplyCovers | internal/module/warehouse/service.go:676-710 | applying a sheet keeps reservations covered if and only if every count it books is at least the reserved amount |
| StockRuns.MovedStocktakingLosesJournal | internal/module/warehouse/service.go:680-694 | receive 10, start, receive 5, count 12, apply: the level is 12 and its movements add up to 17 |
| StockRuns.NegativeCountGoesThrough | internal/module/warehouse/service.go:576-604 | receive 10, start, count -1, apply: the level is -1 |
| StockRuns.AdjustmentUncovers | internal/module/warehouse/service.go:313-371 | receive 10, reserve 6, adjust to 5: more is reserved than there is |
| Reservations.OnOrderConfirmed | cmd/server/main.go:423-431 | every line's reservation is tried in order and refusals are skipped; nothing happens without a warehouse |
| Reservations.OnOrderCancelled | cmd/server/main.go:451-459 | the same for releases |
| Reservations.LoopReservesEveryLine | cmd/server/main.go:423-431 | no reservation is refused if and only if quantities are positive and each product's whole demand is available |
| Reservations.ReserveEffect | cmd/server/main.go:423-431 | if none is refused, each slot's reserved amount rises by the demand for its product and nothing else changes |
| Reservations.ReserveTakes | cmd/server/main.go:423-431 | whatever is refused, the loop reserves for each product the lines that fit beside those before and changes nothing else |
| Reservations.TakenIsDemand | cmd/server/main.go:423-431 | no more than the demand for a product is reserved, and all of it exactly when it is available in full |
| Reservations.CheckedOrderIsReserved | internal/module/warehouse/service.go:508-520 | distinct products, positive quantities and a passed check imply that the loop reserves every line |
| Reservations.RepeatedProductSlipsThrough | internal/module/warehouse/service.go:508-520 | a run after which an order naming a product twice passes the check and has a line refused |
| Reservations.UnreserveEffect | cmd/server/main.go:451-459 | the loop takes the demand for each product off its reserved amount, down to zero at most, and changes nothing else |
| Reservations.CancelRestores | cmd/server/main.go:423-459 | whatever the loops refuse, confirming and cancelling in any line order gives back the very same tables if and only if each product asked for is available in full or had nothing reserved |
| Reservations.ReservedOrderIsRestored | cmd/server/main.go:451-459 | an order whose lines were all reserved gives everything back |
| Reservations.SkippedLineEatsReservations | cmd/server/main.go:451-459 | a run after which an order passes the check, loses a line, and when confirmed and cancelled takes all three units reserved by others |
| Reservations.CancelWithoutReservation | internal/module/order/service.go:377-415 | releasing lines that were never reserved changes nothing if and only if nothing is reserved for the products they ask for |
| Fulfilment.ConfirmWithStock | internal/module/order/service.go:224-262 | confirming asks the warehouse for every item when one is set, and succeeds exactly when the order is new and each item alone is available |
| Fulfilment.ConfirmedOrderIsReserved | cmd/server/main.go:423-459 | an order with distinct products and positive quantities confirmed against current stock gets every line reserved, and cancelling it gives the stock back as it was |
| Costing.CallsFold | internal/module/warehouse/service.go:108-124 | a run of costed receipts on one slot is the fold of single receipts over its level |
| Costing.PriceRounding | internal/module/warehouse/service.go:120-122 | rounding the unit price moves the stock's value by at most half the new quantity |
| Costing.OneReceipt | internal/module/warehouse/service.go:108-124 | one costed receipt moves unit cost times quantity away from what was paid by at most both roundings |
| Costing.CostTracksPayments | internal/module/warehouse/service.go:108-124 | after any costed receipts unit cost times quantity misses the payments by at most half the sum of running quantities, plus half a kopeck per receipt unless quantities are whole |
| Costing.CostStaysBetween | internal/module/warehouse/service.go:108-124 | if the first two receipts bring at least one unit together, the unit cost stays between the lowest and highest receipt cost |
| Costing.WholeUnitsKeepRange | internal/module/warehouse/service.go:108-124 | with whole quantities the unit cost stays between the lowest and highest receipt cost |
| Costing.SmallStartLosesCost | internal/module/warehouse/service.go:108-124 | two receipts that bring less than a unit: at some cost, the same for both, the average is a different one |
| Costing.RangeKeptExactly | internal/module/warehouse/service.go:108-124 | for given positive quantities, the average keeps the range of costs at all times and for all costs if and only if the first two bring at least one unit |
| Costing.FractionsLoseTheCost | internal/module/warehouse/service.go:108-124 | two receipts of a thousandth at 100 leave a unit cost of 0 |
| Orders.OrderService.BuildItems | internal/module/order/service.go:84-112 | the loop's three sums are those of the items it builds |
| Orders.OrderService.CreateOrder | internal/module/order/service.go:50-158 | an order without lines or with a bad customer is refused; otherwise a draft with its items and sums is stored |
| Orders.OrderService.UpdateOrder | internal/module/order/service.go:554-619 | only drafts and new orders change; given lines replace all items and reprice the order |
| Orders.OrderService.ConfirmOrder | internal/module/order/service.go:224-282 | new to confirmed, refused if a warehouse is set and stock is short |
| Orders.OrderService.RefundOrder | internal/module/order/service.go:421-519 | a paid, shipped or delivered order gets one refund record; a bad line refuses the whole refund |
| Orders.OrderService.BuildRefund | internal/module/order/service.go:458-481 | succeeds exactly when every line names an item of the order with a quantity from 1 to the ordered one, and then totals their prices |
| Orders.OrderTotalsAgree | internal/module/order/service.go:84-121 | after any calls each order's total is the sum of its item totals and subtotal - discount + tax |
| Orders.AmountIsNearest | internal/module/order/service.go:84-112 | a line's amount is its exact price to the nearest kopeck, halves away from zero, in both signs |
| Orders.SubtotalNearExact | internal/module/order/service.go:84-121 | the subtotal is within half a kopeck per item of the exact sum |
| Orders.PricedCallsMirror | internal/module/order/service.go:50-619 | the stored items are the lines asked for, in order; an update without lines keeps items and amounts |
| Orders.DetailsStay | internal/module/order/service.go:554-619 | no call moves an order to another warehouse, and only an update with notes changes its notes |
| Orders.AcceptedExactly | internal/module/order/service.go:50-619 | exactly when orders are created, updated and refunded, in terms of the order alone, and what each refusal means |
| Orders.OrdersMoveForward | internal/module/order/service.go:197-418 | along any run stages never fall, amounts and items are fixed from confirmation on, delivered and cancelled orders never change |
| Orders.MovesExactly | internal/module/order/service.go:197-418 | a status can change by some call exactly along draft, new, confirmed, paid, shipped, delivered and, up to paid, to cancelled |
| Orders.RunStaysConsistent | internal/module/order/service.go:50-619 | every run keeps sums, item ids and refund records in agreement |
| Orders.RefundRegroups | internal/module/order/service.go:458-481 | refund totals summed line by line equal unit price times refunded quantity summed item by item |
| Orders.PricedRefundBound | internal/module/order/service.go:84-112 | refunds within the ordered quantities cost at most the subtotal, although each line of it was rounded |
| Orders.RefundsWithinSubtotal | internal/module/order/service.go:458-481 | if all refunds together stay within each item's quantity, everything ever refunded is at most the subtotal |
| Orders.OneRefundWithinSubtotal | internal/module/order/service.go:458-481 | an accepted refund that names each item at most once totals at most the subtotal |
| Orders.SameRefundPassesAgain | internal/module/order/service.go:458-481 | an accepted refund is accepted any number of times, adds its total each time, and stays within the subtotal if and only if that sum does |
| Orders.RefundsExceedSubtotal | internal/module/order/service.go:458-481 | a run from nothing to an order of 10 on which 10 * n is refunded, for every n |
| Logistics.LogisticsService.Create | internal/module/logistics/service.go:27-78 | a planned route with its stops pending and numbered in the given order |
| Logistics.FreshRouteListsAddresses | internal/module/logistics/service.go:27-78 | after any run a new route is planned and lists one pending stop per address, in the order the addresses were given |
| Logistics.LogisticsService.Arrive | internal/module/logistics/service.go:151-188 | a pending stop whose earlier stops are all completed becomes arrived with the current time |
| Logistics.LogisticsService.CompleteVisit | internal/module/logistics/service.go:191-215 | an arrived stop becomes completed, nothing else |
| Logistics.RunStaysOrderly | internal/module/logistics/service.go:151-215 | every run keeps each route's stops in visiting order |
| Logistics.StopsVisitedInOrder | internal/module/logistics/service.go:151-215 | in sort order a route's stops are completed ones, at most one arrived, then pending ones, with arrival times never decreasing |
| Logistics.AcceptedAreStepsDone | internal/module/logistics/service.go:151-215 | the accepted arrive and complete calls on a route are exactly the steps its stops show as done |
| Logistics.AtMostTwoStepsPerStop | internal/module/logistics/service.go:151-215 | at most 2n such calls are accepted for n stops, and 2n exactly when all stops are completed |
| Logistics.VisitsMarkOneStop | internal/module/logistics/service.go:151-215 | an arrival stamps its stop with the current time, a completion keeps the stamp, and no other stop changes |
| Logistics.VisitsAcceptedExactly | internal/module/logistics/service.go:151-215 | exactly when a visit is accepted, and what each refusal means |
| Logistics.RouteMovesExactly | internal/module/logistics/service.go:101-148 | some call changes a route's status exactly from planned to in progress and from there to finished |
| Catalog.CalculatePrice | internal/module/catalog/service.go:382-447 | the price is the base after the discounts whose schedule or customer tags match, in rule order; the quantity has the bonus of the last bonus rule that fires; the fired rules are listed in order; no base price is an error |
| Catalog.MatchesSchedule | internal/module/catalog/service.go:449-490 | weekday, date range and the printed time's window all hold, each only if given |
| Catalog.MatchesCustomerTags | internal/module/catalog/service.go:492-506 | some required tag is among the customer's; no required tags never match |
| Catalog.LastRuleDecides | internal/module/catalog/service.go:422-444 | one more rule changes nothing unless it is active and holds; then its discount applies to the price so far, or its bonus for every whole package replaces the earlier one, and it is named last |
| Catalog.ScheduleParts | internal/module/catalog/service.go:449-490 | what weekdays, dates and time windows ask for by themselves, and that a schedule asks for all of them |
| Catalog.WindowIsMet | internal/module/catalog/service.go:482-487 | whatever texts are its ends, a time window is met at some minute of the day if and only if the least printed time not below its start exists and is not above its end |
| Catalog.PrintedWindowIsMet | internal/module/catalog/service.go:482-487 | a window starting at a printed time is met if and only if it does not end before it starts |
| Catalog.NightWindowIsNeverMet | internal/module/catalog/service.go:482-487 | a rule from 22:00 to 06:00 never applies |
| Catalog.UnpaddedWindowIsNeverMet | internal/module/catalog/service.go:482-487 | a rule from 9:00 to 9:30, written without a leading zero, never applies |
| Catalog.ClocksInOrder | internal/module/catalog/service.go:483 | printed times compare as the minutes of the day |
| Catalog.OnePercentStep | internal/module/catalog/service.go:508-521 | one percent discount gives a price from 0 to the old one, at or above the exact product by less than a kopeck |
| Catalog.PercentRounding | internal/module/catalog/service.go:422-444 | n percent discounts give a price at or above the exact product of factors, by less than n kopecks |
| Catalog.ReorderedDiscounts | internal/module/catalog/service.go:422-444 | reordering n percent discounts moves the price by less than n kopecks |
| Catalog.ExactIgnoresOrder | internal/module/catalog/service.go:508-521 | the exact product does not depend on the order |
| Catalog.PriceStaysInRange | internal/module/catalog/service.go:508-521 | any mix of percent discounts of 0 to 100, nonnegative fixed discounts and unknown kinds keeps the price between 0 and the base |
| Catalog.FixedDiscountsAddUp | internal/module/catalog/service.go:508-521 | fixed discounts take their sum off the price, down to zero |
| Catalog.FixedDiscountsIgnoreOrder | internal/module/catalog/service.go:422-444 | so their order does not matter |
| Money.FormatWithSpaces | pkg/money/money.go:69-82 | the loop prints the decimal digits grouped by threes from the right |
| Money.Format | pkg/money/money.go:29-57 | sign, grouped rubles, comma, two kopeck digits and the currency's symbol, on 64-bit amounts |
| Money.RoundTrip | pkg/money/money.go:29-57 | reading a printed amount back gives the amount, in every currency, if and only if it is above -2^63 |
| Money.LeastAmountUnreadable | pkg/money/money.go:29-35 | -2^63 prints with two leading minus signs and cannot be read |
| Money.PrintedAmounts | pkg/money/money.go:27-57 | 1500.25 rubles print as "1 500,25 ₽", five cents owed as "-0,05 $", and other currencies by their code |
| Money.GroupShape | pkg/money/money.go:69-82 | split at spaces, the first group has one to three digits and every other exactly three |
| Dsl.ValidateActions | pkg/dsl/validator.go:103-113 | exactly the actions of unknown type are reported |
| Dsl.ValidateTransition | pkg/dsl/validator.go:76-93 | exactly the defects of this transition are reported |
| Dsl.ValidateState | pkg/dsl/validator.go:58-94 | exactly the defects of this state, its timeout, actions and transitions are reported |
| Dsl.ValidateStates | pkg/dsl/validator.go:57-94 | exactly the defects inside states are reported, and whether some state is terminal |
| Dsl.Validate | pkg/dsl/validator.go:30-101 | every defect is reported and nothing else is, so the list is empty exactly for valid definitions |
| Dsl.ValidMeans | pkg/dsl/validator.go:30-113 | a definition passes if and only if its names are given, its initial state is declared, some state is terminal, and every timeout, transition and action of every state is in order |
| Process.FirstMatch | internal/core/process/engine.go:141-152 | the first transition with the event's type whose condition holds, or none |
| Process.MovesByVerdict | internal/core/process/engine.go:133-197 | an instance moves along the first transition of its state with the event's type whose condition, if any, the evaluation finds true, with its history, and is completed exactly in a terminal target; otherwise it stays as it is |
| Process.StartsOne | internal/core/process/engine.go:105-131 | an event starts exactly one active instance in the initial state of the definition it triggers, or none without entity or definition |
| Process.Engine.HandleEvent | internal/core/process/engine.go:56-78 | an event may start one instance; then every active instance of its entity, that one included, moves or stays as its definition says, and no other instance changes |
| Process.Engine.AdvanceInstance | internal/core/process/engine.go:133-197 | the first matching transition is taken and recorded, and a terminal target completes the instance |
| Process.Engine.FindDefinition | internal/core/process/engine.go:199-206 | some registered definition with the id, or none if there is none |
| Process.Engine.SaveDefinition | internal/core/process/engine.go:273-284 | only valid definitions are saved, so registered ones stay valid |
| Process.LastStepTaken | internal/core/process/engine.go:133-197 | a move is a declared, enabled transition of the definition it went by, and completes the instance exactly in a terminal state |
| Process.TrailExtends | internal/core/process/engine.go:133-197 | a move appends one step to the explanation of the instance's history |
| Process.RunsAreExplained | internal/core/process/engine.go:56-197 | whatever valid definitions are saved between events, every instance's history is a connected path from its initial to its current state, each step a declared, enabled transition of a definition registered at that moment, one per event in order, completed exactly when the last step was terminal |
| Process.SavesStayValid | internal/core/process/engine.go:273-284 | saving keeps every registered definition valid at every event |
| Process.OneDefinitionExplains | internal/core/process/engine.go:199-206 | when definitions under one id are always the same one, it declares the whole path and the current state, and completion means at least one step and a terminal state |
| Process.UniqueIdsGivePath | internal/core/process/engine.go:199-206 | with unique definition ids every history is a path of the one definition |
| Process.SharedIdMixesDefinitions | internal/core/process/engine.go:199-206 | two valid definitions under one id and a run whose history is a path of neither |
| Process.TerminalStartStaysActive | internal/core/process/engine.go:107-113 | an instance started in a terminal state is active and stays so through any number of events |
| Process.InstancesOnlyGrow | internal/core/process/engine.go:133-197 | instances are never lost or moved, histories only grow, completed instances never change |

## Left out

- Floating point: quantities and coordinates are exact reals; rounding of float64 and of NUMERIC columns, NaN and infinities are not modelled.
- 64-bit overflow outside `Money`: sums of kopecks are unbounded integers.
- Storage failures before a call's first write, which leave everything as it was, and a commit that succeeds although it reports an error.
- Logistics.LogisticsService.Create: the route and its stops are separate inserts in the source; a failure in between leaves a route without stops, which is what creating it without stops leaves here.
- Ledger.FinanceService.AutoPost: entry and posting are two commits in the source; a failure in between leaves an unposted entry, which is what entering it without posting leaves here.
- Ledger.FinanceService.RecordCash: the cash row is a commit of its own before the two of its posting; a failure in between leaves the row alone or with an unposted entry.
- Isolation below the service call: two warehouse or finance calls racing between their reads and writes.
- Stock.Warehouse.ReceiveStock: where a negative old quantity and the receipt cancel out, the source divides by zero and converts the infinity, which Go leaves to the platform; here the receipt's own cost stands in.
- Other fields of stock levels: unit, minimum and maximum quantities, and low-stock events.
- Several organizations in stock, orders, routes and entities: their tables are those of one organization; the ledger has many.
- Row order of SQL listings: the product listing of a stocktaking is a parameter, the reports' ORDER BY is dropped.
- Catalog.MatchesSchedule: dates come parsed, and the moment comes with its weekday and its minute of the day.
- Orders.OrderService.ConfirmOrder: the answer of the availability check is a parameter; Fulfilment.ConfirmWithStock obtains it from the stock tables.
- Condition evaluation, emitted actions and timeouts of the process engine: a deterministic predicate decides conditions, actions have no effect, timeouts are never executed by the engine either.
- Definitions registered without validation (internal/core/process/engine.go:35-52): the theorems on runs ask for valid definitions.
- Deletion of definitions (internal/core/process/engine.go:287-298) and manual triggers.
- Idempotency with Redis unavailable or without an idempotency value: such requests go straight to the handler.
- Headers and text of the 429 answer, and a handler that panics.
- Reading events back by entity or time range (internal/storage/postgres/event_store.go:46-139): replay uses the order of storing.
- Invoices, transaction descriptions and references, and events published by finance, orders, routes and warehouse, except the two order events that reserve and release stock.
- Order numbers, payment methods and refund reasons.
- `Add`, `Sub`, `MulQty`, `FromFloat` and `ToFloat` of pkg/money/money.go: single expressions.
- HTTP handlers, CORS, logging, metrics, sessions, access control, webhooks, mail, storage and external services: plumbing.
- CRM, settings, documents, import and export, analytics, messenger and personnel modules: record keeping with no further invariant.
