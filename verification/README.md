# The coin economy of merch-store, verified

merch-store lets employees send each other coins and buy merchandise. This project models the part
of it where the coins are: the store service, whose transfers and purchases run concurrently as
multi-statement transactions over shared balance rows; the auth service, which registers users on
their first login; and the report that reads balance, inventory and history back through two
services. It proves what these promise for every run, every interleaving and every failure point.

## How it is built

| file | content |
|---|---|
| `Ledger.dfy` | the reference: tables, and transfers, purchases and openings that happen in one step |
| `StoreSystem.dfy` | the store as a state machine: one SQL statement or remote call per step, row locks, staged writes, failures at any point |
| `StoreInvariant.dfy`, `Refinement.dfy` | what every reachable state keeps; every interleaving is a serial run of the ledger |
| `Outcomes.dfy` | what an answer says about the effect of the call |
| `Conservation.dfy`, `SerialIds.dfy`, `TooRich.dfy` | coins in flight, overdraft, INTEGER bounds and how tight they are |
| `Deadlock.dfy` | the shape of deadlocks, their permanence, and progress without them |
| `SoloRuns.dfy`, `Victims.dfy`, `PaymentRings.dfy` | requests that run alone; transactions that are aborted; which payments can deadlock, exactly |
| `StoreServer.dfy` | handlers, use cases and repositories as methods of a class over the database, amid any other requests |
| `AuthSystem.dfy`, `FirstLogins.dfy`, `AuthServer.dfy` | register-or-verify as a state machine, when a call succeeds, and the class |
| `Platform.dfy`, `Payments.dfy` | both services together: every id in the store is a registered user's, and coins reach the user who is named |
| `Report.dfy`, `EndToEnd.dfy`, `TornReports.dfy` | the loops from rows to the gateway's report, what the report adds up to, and reports that do not add up |
| `Sums.dfy` | sums over finite maps |

`StoreSystem.Next` is the concurrency model. A request advances by one statement at a time; a
statement that needs a row which another transaction has locked leaves the state as it is. `Fail`
makes the pending statement fail, `LoseAck` lets an autocommitted statement or a commit take effect
without the caller learning of it. Locks follow sections 13.2.1 and 13.3.2 of the PostgreSQL 16
documentation. The methods of `StoreServer.Store` execute the statements of the Go code on fields
that stand for the tables; between any two statements `Others` lets other requests do anything, and which
of a call's own statements fail is an input of the call (`Faults`). Each method is proved to make steps of
the state machine, so that what holds of all runs holds of it, and to answer as the failures, the recipient's
lookup, the balances it meets and nothing else demand.

Where the code and an obvious reading of it differ, the code was followed:

- "The right password always logs in" does not hold: of two simultaneous first logins one fails with
  an internal error (`AuthSystem.RaceLoserFails`). `FirstLogins.FirstLoginSucceedsIff` says of whole calls
  exactly when they succeed, and `FirstLogins.BrokenHasCause` why one fails.
- Transfers can deadlock, and stay so until one of them fails (`PaymentRings.RingCanDeadlock`,
  `Deadlock.RingWaitsForGood`). They can exactly if who pays whom admits a directed cycle, which is known
  before any call is made (`PaymentRings.DeadlockIffCycle`).
- A credit can overflow its INTEGER column once there are enough accounts
  (`TooRich.SafeAccountsIsTight`; the safe number is the one of `Conservation.CreditFits`).
- A report whose queries see different moments, or whose purchase query breaks off half-way, need not
  add up: the purchase query does not ask whether its iteration ended well. `TornReports.SomeReportsFail`
  gives one of either kind; `EndToEnd.ReportReconcilesIff` and `EndToEnd.ReportReconcilesIffFlowsAgree` say
  exactly when a report adds up, for any four moments and any such break.
- The answer NotFound of SendCoins stands for any failed lookup of the recipient, not only for an
  unknown name; the model answers the same.

## Model

| member | source | states |
|---|---|---|
| Ledger.Reconciles | internal/store/infrastructure/postgres/transaction_proceeder.go:18-36 | in the serial ledger a balance is 1000 plus all that was received, less all that was sent and spent |
| Ledger.OpenedOnce | internal/store/infrastructure/postgres/balances_repository.go:23-28 | the opening balance is paid exactly once to whoever has an account, and never to others |
| Ledger.ReplaySound | migrations/store/20260105154955_init_store.sql:3-27 | the CHECK constraint, the foreign keys and the INTEGER range hold after any sequence of operations |
| Ledger.StrangersOweNothing | migrations/store/20260105154955_init_store.sql:15-26 | a user without an account is on neither side of any transfer and has bought nothing |
| StoreInvariant.NextKeepsInv | internal/pkg/database/transactions.go:30-56 | every statement, failure and lost answer keeps lock discipline, the shape of each open transaction and the soundness of the tables |
| StoreInvariant.RunKeepsInv | internal/pkg/database/transactions.go:30-56 | so does every run |
| StoreInvariant.LockHygiene | internal/store/infrastructure/postgres/balances_repository.go:30-45 | a held lock belongs to a request inside its transaction, on its payer's row or a recipient's row it has credited |
| StoreInvariant.ReadStaysCurrent | internal/store/application/send_coins_case.go:48-58 | the balance read under the lock stays the committed balance, and the lock stays held, until commit or rollback |
| StoreInvariant.DebitWrites | internal/store/infrastructure/postgres/purchaser.go:18-22 | the debit finds its row, locked, with enough on it, and writes exactly balance minus cost |
| StoreInvariant.CreditCases | internal/store/infrastructure/postgres/transaction_proceeder.go:26-30 | the credit finds its row; it waits, overflows, or writes exactly balance plus amount |
| StoreInvariant.CommitApplies | internal/pkg/database/transactions.go:50-53 | what a commit installs is the one-step operation of the ledger, which the ledger accepts at that moment |
| Refinement.NextIsAtomic | internal/pkg/database/transactions.go:30-56 | simulation: each step of the concurrent store is one accepted step of the atomic ledger, or none |
| Refinement.RunIsSerializable | internal/store/application/send_coins_case.go:48-64 | for every interleaving the tables are those of a serial execution in commit order, which only grows |
| Refinement.ReachableSerialized | internal/store/application/purchase_case.go:34-50 | the same for every reachable state |
| Refinement.BalancesReconcile | internal/store/infrastructure/postgres/balances_repository.go:23-28 | in every reachable state each balance is 1000 plus received less sent less spent, the account having been opened once |
| Refinement.AccountsStay | internal/store/grpc/balance_interceptor.go:40-46 | an account, once opened, is there in every later state |
| Refinement.AcceptedIsSerial | internal/pkg/database/transactions.go:45-55 | a transaction that reaches its commit is accepted by the serial ledger and has its effect |
| Refinement.RefusedIsSerial | internal/store/application/send_coins_case.go:54-56 | a request is refused for want of coins exactly at its own check, and exactly if the ledger would refuse it then |
| Refinement.DebitNeverRefused | internal/store/infrastructure/postgres/transaction_proceeder.go:18-24 | the zero-rows branch of the guarded debit is never taken, and neither debit is refused by the CHECK constraint |
| Refinement.CreditNeverMisses | internal/store/infrastructure/postgres/transaction_proceeder.go:26-30 | the unchecked credit hits exactly one row whenever it goes through |
| Refinement.RecordNeverDangles | internal/store/infrastructure/postgres/transaction_proceeder.go:32-36 | the foreign keys of the new row hold; only an exhausted id sequence can refuse it |
| Outcomes.ReplyMatchesEffect | internal/store/grpc/store_service.go:59-111 | OK means exactly one record was committed, the one asked for; a code that blames the client means none; Internal means none or that one |
| Outcomes.PendingHasNoEffect | internal/pkg/database/transactions.go:38-53 | a request that has not been answered has committed no transfer and no purchase |
| Outcomes.OpensOnlyItsOwn | internal/store/application/send_coins_case.go:43-46 | beyond its record a request opens at most its caller's and its recipient's account |
| Outcomes.RunIsAccounted | internal/store/grpc/store_service.go:59-111 | every run keeps the books that tie each request to its journal entries |
| Conservation.CoinsAreConserved | internal/store/infrastructure/postgres/transaction_proceeder.go:18-33 | current rows, coins between debit and credit and all spending, staged or committed, add up to 1000 per account at any point of any run |
| Conservation.LedgerConserves | internal/store/infrastructure/postgres/purchaser.go:18-28 | the same for committed tables |
| Conservation.NoOverdraft | internal/store/infrastructure/postgres/purchaser.go:18-19 | neither the committed version of a row nor the newest, staged one is ever negative |
| Conservation.HoldingsAreBounded | internal/store/infrastructure/postgres/transaction_proceeder.go:26-27 | a row plus a transfer under way never exceeds what all accounts were opened with |
| Conservation.CreditFits | migrations/store/20260105154955_init_store.sql:6 | with at most 2147483 accounts no credit overflows, even on uncommitted values |
| Conservation.RowsAreDoubleEntry | internal/store/infrastructure/postgres/user_info_repository.go:74-81 | each row counts once for its sender and once for its recipient |
| Conservation.DoubleEntry | internal/store/infrastructure/postgres/user_info_repository.go:73-101 | in every reachable state sent and received totals agree, the two sides of a row differ, and amounts fit INTEGER |
| EndToEnd.RecordsAreDoubleEntry | internal/store/infrastructure/postgres/user_info_repository.go:73-101 | record by record: each committed transfer is selected as outgoing of its sender once, as incoming of its recipient once, and for nobody else |
| TooRich.SafeAccountsIsTight | migrations/store/20260105154955_init_store.sql:6 | with one account more a reachable credit fails, so the bound is exact |
| SerialIds.RowsAreNumbered | migrations/store/20260105154955_init_store.sql:15-26 | no table outgrows its INTEGER ids, so that counts fit uint32 |
| SerialIds.RunKeepsCovered | migrations/store/20260105154955_init_store.sql:3-26 | committed and staged rows never outnumber the ids drawn, nor do the accounts that pending requests have made sure of |
| SerialIds.PendingCreditsAreNumbered | migrations/store/20260105154955_init_store.sql:4 | each half-done transfer has drawn two account ids, which bounds how many there are at once |
| SerialIds.SerialsGrow | migrations/store/20260105154955_init_store.sql:3-26 | ids are never given back along a run |
| Deadlock.BlockedIffNoStep | internal/store/infrastructure/postgres/balances_repository.go:31-34 | waiting for a locked row is the only thing that keeps a request from its next step |
| Deadlock.MiddleIsHalfDone | internal/store/application/purchase_case.go:35-44 | whoever waits while waited for is a transfer that has debited its sender and owns just that row; purchases wait empty-handed |
| Deadlock.WaiterHolds | internal/store/infrastructure/postgres/transaction_proceeder.go:18-27 | whoever waits holds nothing, or is a transfer about to credit that holds just its own sender's row |
| Deadlock.DeadlockShape | internal/store/application/send_coins_case.go:39-58 | a cycle of waiting requests is a directed cycle of at least two payments between half-done transfers, and conversely |
| Deadlock.RingWaitsForGood | internal/store/infrastructure/postgres/transaction_proceeder.go:26-30 | the members of such a cycle stay where they are, whatever else a run brings, until one of them fails |
| Deadlock.StuckMeansPaymentRing | internal/store/application/send_coins_case.go:48-64 | if no request can step, some payments form such a cycle |
| Deadlock.NoRingUpward | internal/store/application/send_coins_case.go:48-64 | payments that all go up some ranking of the users form no cycle |
| Deadlock.Progress | internal/store/application/send_coins_case.go:48-64 | then some live request can take its next step |
| Deadlock.MeasureDecreases | internal/pkg/database/transactions.go:38-53 | every step that does anything uses up one of finitely many |
| Deadlock.RunsAreBounded | internal/pkg/database/transactions.go:38-53 | after the last arrival only so many things can happen, failures included |
| Deadlock.Completion | internal/store/application/send_coins_case.go:48-64 | with acyclic payments all requests can be brought to their answers without a single abort |
| Deadlock.EveryScheduleCompletes | internal/store/application/send_coins_case.go:48-64 | and so under every abort-free schedule: it can always go on to the end, halts only there, and has a bounded number of effective steps |
| PaymentRings.RingCanDeadlock | internal/store/infrastructure/postgres/transaction_proceeder.go:18-30 | from any state in which the users of a ring are idle and can afford it, payments that go round the ring, of any length and any amounts, can end in a deadlock of just these payments |
| PaymentRings.MutualPaymentsDeadlock | internal/store/infrastructure/postgres/transaction_proceeder.go:18-30 | so any two users who pay each other at once can wait for each other for good |
| PaymentRings.StuckShowsCycle | internal/store/application/send_coins_case.go:48-64 | a stuck state shows a directed cycle of distinct users in whatever relation its payments keep to |
| PaymentRings.DeadlockIffCycle | internal/store/application/send_coins_case.go:33-64 | payments within a relation of payers and payees can deadlock if and only if the relation has a directed cycle that ids suffice for |
| SoloRuns.RunsToCredit | internal/store/application/send_coins_case.go:33-58 | a transfer that its sender can afford gets to its credit when it runs alone, holding just its sender's row |
| SoloRuns.RunsToPaid | internal/store/infrastructure/postgres/transaction_proceeder.go:26-38 | from there it goes through, if the row is free and has room, and does what the ledger does |
| SoloRuns.RunsToBought | internal/store/application/purchase_case.go:28-51 | a purchase that runs alone and can be afforded is committed |
| StoreServer.Store.EnsureBalanceCreated | internal/store/infrastructure/postgres/balances_repository.go:23-28 | opens the account with 1000 if and only if it is missing, and draws an id either way, failing only when none is left |
| StoreServer.Store.OpenAccount | internal/store/grpc/balance_interceptor.go:40-46 | the opening succeeds exactly if the statement does not fail and an id is left; failures and lost answers are steps of the state machine |
| StoreServer.Store.AwaitRow | internal/store/infrastructure/postgres/balances_repository.go:31-34 | a statement that needs a row is granted it once nobody else holds it, unless the statement fails |
| StoreServer.Store.LockAndGetUserBalance | internal/store/infrastructure/postgres/balances_repository.go:30-45 | waits for the row, then locks it and returns the committed balance, or finds no row; it fails exactly if the statement does |
| StoreServer.Store.DebitSender | internal/store/infrastructure/postgres/transaction_proceeder.go:18-24 | stages balance minus amount under the lock unless the statement fails; the zero-rows answer of the guarded UPDATE never comes |
| StoreServer.Store.CreditRecipient | internal/store/infrastructure/postgres/transaction_proceeder.go:26-30 | stages balance plus amount under the lock exactly if the statement does not fail and the sum fits the column |
| StoreServer.Store.InsertTransfer | internal/store/infrastructure/postgres/transaction_proceeder.go:32-36 | stages the history row exactly if the statement does not fail and an id is left |
| StoreServer.Store.ProceedTransaction | internal/store/infrastructure/postgres/transaction_proceeder.go:17-39 | succeeds unless a statement fails, the credit overflows or the ids run out; then exactly the debit, the credit and the record are staged, computed from the committed balances of that very moment |
| StoreServer.Store.DebitBuyer | internal/store/infrastructure/postgres/purchaser.go:18-22 | unguarded as it is, it stages balance minus price under the lock unless the statement fails |
| StoreServer.Store.ProcessPurchase | internal/store/infrastructure/postgres/purchaser.go:17-31 | succeeds unless a statement fails or the ids run out; then exactly the debit and the purchase are staged, and the balance sufficed |
| StoreServer.Store.InsertPurchase | internal/store/infrastructure/postgres/purchaser.go:24-28 | stages the purchase exactly if the statement does not fail and an id is left |
| StoreServer.Store.BeginTx | internal/pkg/database/transactions.go:31-36 | the transaction begins exactly if the statement does not fail |
| StoreServer.Store.CommitTransaction | internal/pkg/database/transactions.go:50-53 | the staged writes become the committed ones at once, and the locks go |
| StoreServer.Store.RollBack | internal/pkg/database/transactions.go:38-43 | the staged writes and the locks go, nothing else changes |
| StoreServer.Store.EndTransaction | internal/pkg/database/transactions.go:38-56 | after success it commits unless the commit fails: the journal grows by the job, the staged rows are written over the old ones, and success is returned; after an error, or if the commit fails, the tables stay; every exit releases the locks |
| StoreServer.Store.LockAndCheck | internal/store/application/send_coins_case.go:49-56 | lock, read and compare, with other requests in between: it is refused if and only if the committed balance was then too low; on success it covers what is due, under a held lock; the row is never missing |
| StoreServer.Store.TransferInTransaction | internal/store/application/send_coins_case.go:48-64 | refused exactly if the compared balance is too low, and committed exactly if nothing fails, the credit fits and ids are left; then it has committed this transfer and nothing else; no lock is left |
| StoreServer.Store.PurchaseInTransaction | internal/store/application/purchase_case.go:34-50 | likewise for the purchase |
| StoreServer.Store.SendCoins | internal/store/grpc/store_service.go:59-84 | amid any other requests, while ids are left, each code comes exactly for its cause: NotFound for a failed lookup, InvalidArgument for oneself, FailedPrecondition for a compared balance below the amount, OK if nothing fails and the credit fits, Internal otherwise; OK leaves exactly this transfer, a client error nothing; no lock is left, and the database is still serializable |
| StoreServer.Store.ResolveAndSend | internal/store/application/send_coins_case.go:33-65 | a failed lookup is not found and a transfer to oneself is refused, exactly; anything else is attempted, and ends as its statements and balances demand |
| StoreServer.Store.BuyItem | internal/store/grpc/store_service.go:86-111 | the same for a purchase: InvalidArgument exactly if no good has the name, FailedPrecondition exactly for a compared balance below the price, OK exactly if nothing fails, and then exactly one purchase of the named good; a negative price is Internal without effect |
| StoreServer.Store.GoodIsFound | internal/store/infrastructure/postgres/goods_repository.go:23-37 | a name is found exactly if a row has it, and that row is the only one |
| StoreServer.Store.LookUpAndBuy | internal/store/application/purchase_case.go:28-51 | the price is looked up before the transaction; a negative one fails there, before any balance is read |
| StoreServer.Store.Settled | internal/store/grpc/store_service.go:59-111 | what a finished call leaves behind, in terms of the whole run |
| AuthSystem.NextKeepsAuth | internal/auth/infrastructure/postgres/users.go:25-53 | unique names, growing ids, and every login's view of its row survive any step; rows are only added |
| AuthSystem.RowIsUnique | migrations/auth/20260104154955_init_users.sql:3-7 | one row per name and one per id |
| AuthSystem.RegisteredForGood | internal/auth/infrastructure/postgres/users.go:25-36 | over any run a row stays the row of its name and of its id |
| AuthSystem.TokenNeedsPassword | internal/auth/application/auth_case.go:36-64 | a token is issued only for the password that the winning insert stored, and names that row |
| AuthSystem.TokensIdentify | internal/auth/application/auth_case.go:63 | tokens carry the same uid exactly if they carry the same name |
| AuthSystem.InsertSucceedsIff | internal/auth/infrastructure/postgres/users.go:25-36 | the insert succeeds exactly if the name is free and has at most 50 characters, and an id is left |
| FirstLogins.FreeIffNoRival | internal/auth/application/auth_case.go:37-51 | over any run, a name that fits stays free exactly as long as no login that has found no such user gets to its insert |
| FirstLogins.FirstLoginSucceedsIff | internal/auth/application/auth_case.go:36-64 | a whole call, amid any others: for a known user the password decides; a first login succeeds exactly if the name fits, an id is left and no other first login with the name inserts between its lookup and its insert |
| FirstLogins.BrokenHasCause | internal/auth/application/auth_case.go:42-51 | without failures of the database an internal error means a name that does not fit, exhausted ids, or an insert of the name by another login |
| AuthSystem.LaterLoginSucceedsIff | internal/auth/application/auth_case.go:52-61 | a later login is refused exactly for a wrong password |
| AuthSystem.RaceLoserFails | internal/auth/application/auth_case.go:37-51 | of two simultaneous first logins with the same password one can fail |
| AuthServer.Auth.TryGetUserInfo | internal/auth/infrastructure/postgres/users.go:38-53 | finds the table's row for the name, if there is one |
| AuthServer.Auth.CreateUser | internal/auth/infrastructure/postgres/users.go:25-36 | adds exactly one row, with this name and hash and a new id, if and only if the statement does not fail, the name is free and has at most 50 characters, and an id is left |
| AuthServer.Auth.CreateOrVerify | internal/auth/application/auth_case.go:42-61 | the two branches: an unknown user is created, a known one compared |
| AuthServer.Auth.IssueToken | internal/auth/application/auth_case.go:63 | a token is handed out exactly if issuing does not fail; it names the table's row for the user, whose stored password is the caller's |
| AuthServer.Auth.Authenticate | internal/auth/application/auth_case.go:36-64 | amid any other logins, the answer is the end of the login; if no statement fails, a known user is granted a token exactly for the stored password, and a new one exactly if the name has at most 50 characters, an id is left and no rival inserts the name in between; no row is lost or changed |
| Platform.RunKeepsPlatform | internal/store/application/send_coins_case.go:34-43 | over all runs of both services callers and recipients of all requests are users |
| Platform.FoundIsUser | internal/auth/grpc/auth_service.go:49-64 | the id that crosses the wire as an int32 is that of the user with the name |
| Platform.AccountsAreUsers | internal/store/grpc/balance_interceptor.go:35-46 | every account belongs to a registered user |
| Platform.RowsAreUsers | internal/store/infrastructure/postgres/transaction_proceeder.go:32-33 | so does every id in transfers and purchases |
| Platform.CoinsGoToTheNamedUser | internal/store/grpc/auth_adapter.go:54-68 | what a request commits goes from the token's user to the user it names |
| Platform.Int32Wraps | internal/auth/grpc/auth_service.go:63 | the conversion to int32 loses nothing exactly within its range |
| Payments.CallArrives | internal/store/grpc/auth_interceptor.go:70-93 | a call starts a request of the token's user, and without a token nothing happens |
| Payments.AskResolves | internal/store/grpc/auth_adapter.go:54-68 | the lookup resolves a registered name to exactly its user, refuses the caller's own, and finds nobody for an unknown name or when it fails |
| Payments.GoesThrough | internal/store/application/send_coins_case.go:43-64 | a resolved transfer that can be afforded can be brought to its commit, whoever else holds the rows it needs |
| Payments.ResolvedCanPay | internal/store/application/send_coins_case.go:33-65 | from the lookup on, some run of both services commits it and moves the coins |
| Payments.LoggedInCanPay | internal/store/grpc/store_service.go:59-84 | whoever is logged in and can afford it can pay any other registered user by name, in any state of the platform: one record, the two balances moved, answered OK |
| Victims.VictimEnds | internal/pkg/database/transactions.go:38-48 | a transaction can be aborted at any time: its locks go, and tables, ids and other requests stay |
| Report.ProcessRows | internal/store/infrastructure/postgres/user_info_repository.go:103-123 | one entry per row, in order, with the other side's id and the amount; an iteration that breaks off is an error |
| Report.FetchUserCoinTransfers | internal/store/infrastructure/postgres/user_info_repository.go:73-101 | sent rows give recipients and received rows give senders, each list in its order |
| Report.FetchUserPurchases | internal/store/infrastructure/postgres/user_info_repository.go:48-71 | the map has exactly the delivered groups with their counts, and breaking off goes unnoticed |
| Report.ExtractUserIDs | internal/store/application/user_info_case.go:110-125 | every counterparty exactly once, and nobody else |
| Report.FetchUsernames | internal/auth/infrastructure/postgres/users.go:72-99 | the registered ones among the ids, with their names |
| Report.ServeUsernames | internal/auth/grpc/auth_service.go:66-85 | the int32 keys of the answer neither collide nor change |
| Report.NarrowKeys | internal/auth/grpc/auth_service.go:79-82 | narrowing keys that fit keeps all entries apart |
| Report.WidenKeys | internal/store/grpc/auth_adapter.go:51-54 | widening keeps all entries |
| Report.U32Wraps | internal/store/infrastructure/postgres/user_info_repository.go:67 | the conversion to uint32 loses nothing exactly within its range |
| Report.GetUsernames | internal/store/grpc/auth_adapter.go:28-52 | the trip through client and server equals a direct lookup of the ids as int32, and so of the ids themselves if they fit |
| Report.GetUsername | internal/store/grpc/auth_adapter.go:19-26 | the user's name, or the empty one |
| Report.ConvertToNamed | internal/store/application/user_info_case.go:82-108 | ids become names, while length, order and amounts stay |
| Report.GetUserInfo | internal/store/application/user_info_case.go:25-80 | succeeds exactly if all that it reads was delivered, and combines it |
| Report.ConvertToUserInfoResponse | internal/store/grpc/store_service.go:113-148 | the inventory lists the map, each good once, whatever the order of iteration; sent and received stay apart |
| Report.ConvertToUserInfo | internal/gateway/grpc/store_adapter.go:67-99 | the gateway changes nothing |
| Report.GetReport | internal/gateway/grpc/store_adapter.go:53-65 | the composition: the report has every row, in order, with its amount and the counterparty's registered name, and the inventory without duplicates |
| EndToEnd.TotalPermutes | internal/store/infrastructure/postgres/user_info_repository.go:74-81 | the order in which rows arrive does not matter to their total |
| EndToEnd.WorthIsSpent | internal/store/infrastructure/postgres/user_info_repository.go:49-52 | price times count over any goods is what the single purchases of these goods cost |
| EndToEnd.InventoryAddsUp | internal/store/infrastructure/postgres/user_info_repository.go:60-68 | an inventory is worth what was spent on the goods it lists |
| EndToEnd.AllIsListed | internal/store/infrastructure/postgres/user_info_repository.go:60-70 | if the iteration ends well, nothing that was bought is missing |
| EndToEnd.ReportIsExact | internal/store/application/user_info_case.go:25-80 | every part of a report is exact for the moment at which it was read, whatever commits in between |
| EndToEnd.ReportReconciles | internal/store/application/user_info_case.go:32-67 | if nothing touching the user commits between the reads, the report's balance is 1000 plus received less sent less inventory value |
| EndToEnd.ReportReconcilesIff | internal/store/application/user_info_case.go:32-67 | for any four moments and any purchase iteration: a report adds up exactly if the balance is what the other queries have seen and what the inventory lists |
| EndToEnd.ReportReconcilesIffFlowsAgree | internal/store/application/user_info_case.go:32-67 | that is, exactly if what the user received, sent and spent up to each read cancels out, with what is left unlisted |
| EndToEnd.TornReportReconcilesIff | internal/store/application/user_info_case.go:32-67 | the case of two moments: it adds up exactly if the user owned the same at both |
| EndToEnd.BrokenReportReconcilesIff | internal/store/infrastructure/postgres/user_info_repository.go:60-70 | the case of one moment with a broken purchase query: it adds up exactly if it misses only free goods |
| TornReports.ReportExists | internal/store/application/user_info_case.go:32-67 | any four moments and any break of the purchase iteration have reads made just so, and a report of them |
| TornReports.TornReportFails | internal/store/application/user_info_case.go:32-67 | whenever a user's balance changes between two moments, a delivered report across them does not add up |
| TornReports.BrokenReportFails | internal/store/infrastructure/postgres/user_info_repository.go:60-70 | whenever a user has paid for something, a delivered report with a broken purchase query does not add up |
| TornReports.SomeReportsFail | internal/store/application/user_info_case.go:25-80 | a failing report of either kind, in states that runs reach |
| EndToEnd.ReportNamesUsers | internal/store/application/user_info_case.go:93-105 | every counterparty is a registered user, so that no name is a map's default |
| EndToEnd.UserIdsAreUnique | migrations/auth/20260104154955_init_users.sql:4 | ids are unique and fit int32, as the naming stages need |
| EndToEnd.ReconciledReport | internal/gateway/grpc/store_adapter.go:53-99 | all stages over all states: rows in, and out comes a report that is faithful, named and reconciled |

## Left out

- PostgreSQL beyond statements and row locks: the share locks of foreign keys fall on rows that the transaction owns already, or on goods, which nobody writes; index locks and the deadlock detector's choice of a victim are covered by `Fail`, which may abort any request at any statement.
- StoreServer.Store.AwaitRow: how long a statement waits, and in which order waiting statements are served; it is granted the row when that is free, if only because the holder has been aborted.
- A rollback that fails: the lock is then gone only when the connection is; the model releases it with the rollback.
- A commit whose answer is lost: in the model it takes effect at the moment of the Internal reply; in the code it may land after the reply, with the locks held until then.
- Prices that change: goods are written by the migration alone, so the catalogue is a constant of the model; negative prices are kept, as failing the scan into uint32.
- The account opening before GetUserInfo: it is the interceptor's, modelled with SendCoins and BuyItem; a report request as such is not a session of the state machine.
- Report.GetUserInfo: the three goroutines run one after the other, because they share only their results; that their queries may see different states is what `EndToEnd.Moments` is for. The cancellation of the others when one fails is not modelled.
- Report.FetchUserPurchases: requires distinct names of its rows, which is what the query's GROUP BY delivers; errors of scanning a row count as a failed query.
- FirstLogins.FirstLoginSucceedsIff: PostgreSQL cuts surplus trailing blanks from a name that is too long for its column instead of refusing it; the model refuses it.
- AuthSystem.TokenNeedsPassword: hashing is ideal, a hash verifies exactly the password it was made from; tokens are their claims, without signature, expiry and clocks.
- PaymentRings.MutualPaymentsDeadlock: states a run into the deadlock, not how the database resolves it, which is section 13.3.4 of the PostgreSQL 16 documentation.
- SoloRuns.RunsToCredit: asks for two free ids, an idle sender and a balance that covers the amount, because it builds runs and is no claim about all of them.
- The gateway's HTTP routes, JSON, middleware, configuration, deployment and migrations as such: plumbing without state of its own.
