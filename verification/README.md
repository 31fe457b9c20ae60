# Gripe, verified

A model, in Dafny 4.11, of a payments platform that runs the same use cases on two
databases, and proofs about it. `dafny verify dfyconfig.toml` checks everything.

The core is a payment and refund state machine that drives per-(merchant, currency)
balances through a half-even 3% fee. One store keeps it in relational tables and
transactions, the other in documents written one at a time. Around it are a subscription
cycler with several workers, keyset listings, an idempotency cache, an at-least-once fee
worker, and per-process caches of onboarded actors.

## How it is built

| files | what they hold |
|---|---|
| `Money`, `Calendar`, `Sums`, `Domain` | fee arithmetic, cadences, sums over finite sets, shared types |
| `Ledger`, `Lifetime`, `Balances` | the state machine on rows, refund accounting, the ledger recomputed from history |
| `History`, `Behaviour` | every reply, row and cell told from the accepted calls alone; what callers see of single operations, in plain terms |
| `FeeDrift`, `FeeSums` | what rounding leaves on a refunded payment and on a cell, over whole runs |
| `Relational`, `PostgresStore` | the tables as values with their invariant; the store class that writes them in transactions |
| `Documents`, `MongoStore` | the documents as values; the store class that writes them one at a time |
| `Agreement`, `Requests` | both stores against each other: call by call, and every request about payments over whole runs |
| `TwoWrite` | settlement as two separate writes under interleaving and crashes |
| `Listing`, `ListingStores` | keyset pages against sort-and-filter; the two query builders |
| `Charging`, `CyclerDrain` | charging as a protocol of many workers; the cycler's loops |
| `Replay`, `Middleware` | the idempotency cache under concurrent requests; the middleware and its recorder |
| `FeeWorker`, `Onboarding` | redelivered messages; actor caches of several processes |

A store class changes its fields step by step, as the source does; each method is proved
to be one application of a function on values (`Relational.Apply`, `Documents.DocWrite`,
`Agreement.ApplyDocs`), and the theorems about all runs are lemmas about those functions.
The balances are never part of the specification they are compared with: `Balances.LedgerSum`
is a sum over the payments ever settled and the refunds settled. A payment that was settled
and then fully refunded no longer says so, hence the set `booked`.

The functions the methods are proved against are in turn compared with a second account that
knows no rows: `History` keeps the log of accepted calls and reads off it what each next call must
be answered, error or not, field by field, and what each row and cell must hold.
`History.RunIsItsHistory` says that over every run rows and log tell the same.

Time is one integer line except where the calendar matters. Payment and refund ids are the
96-bit numbers behind their fixed-width hexadecimal names, so their order is the order of
the names. Clock readings, fresh ids, commits that fail, outages and handler behaviour are
parameters.

## Where the source's own words and its code differ

- `internal/domain/domain.go:101-102` says a month added to January 31 gives February 28 or
  29; the code rolls over to March, as its test expects. `Calendar.MonthlyClampsIff` says when
  the two rules agree.
- `internal/cycler/cycler.go:86-88` counts on a store that replays a payment by its key; both
  stores ignore the key. `Charging.ExactlyOnce` holds with honoured keys only. For the shipped
  stores `Charging.ShippedExactlyOnceIff` says which runs charge exactly once: those in which no
  create finds the payment of its cycle already there. `Charging.DuplicatesWithoutKeys` shows that
  no bound holds otherwise, `CyclerDrain.Cycler.Drain` that one worker whose moves do not fail
  stays clear of it.
- `usecases.md:128` has the balance after settling payments as the total less the rounded fee
  of the total. The code books the sum of rounded fees; `FeeSums.SettledTotalIff` says for every
  run when the two are equal, by the residues of the amounts alone, and
  `FeeSums.EquationFallsShort` is a run of n payments of 50 that misses it by (n - 1) / 2 or more.
- `usecases.md:124` promises that no crash leaves a balance out of step. On the document store
  `TwoWrite.CrashLosesTheCredit` is a run that does; `TwoWrite.TwoWriteSettlementIsSafe` says by
  exactly how much the balance is off in every run.
- `internal/api/idempotency.go:43` treats an expired key as new. The handler does run, but the
  expired row stays in the way of every insert unless it is vacuumed: over any run it is still
  there if and only if it was not (`Replay.ExpiredRowStaysIff`), and a later successful insert
  leaves a newer record exactly when it was (`Replay.InsertRenewsIff`). Only the document store
  vacuums, so on the other one such a key never replays again
  (`Replay.KeptExpiredRowNeverReplays`).
- The relational store records a network fee of zero or less, the document store refuses it;
  while sums fit 64 bits this is the only difference between their answers
  (`Requests.StoresAgreeIff`).

## Model

| member | source | states |
|---|---|---|
| Money.HalfEvenIsNearest | internal/domain/money.go:16-28 | the division yields x if and only if x is a nearest integer, the even one on a tie; so the result is right and unique |
| Money.FeeWithinHalf | internal/domain/money.go:10-12 | the fee is within half a minor unit of 3% |
| Money.FeeShape | internal/domain/money.go:10-12 | fee and net amount are monotone, 0 <= fee <= amount, and a positive amount leaves at least 1 |
| Money.SplitRefundDrift | internal/domain/money.go:10-28 | splitting an amount into n refunds moves the fees returned by at most (n + 1) / 2 |
| Money.SplitRefundDriftIsMet | internal/domain/money.go:10-28 | the bound is met for every n = 4k + 3, by slices of 50; k = 0 is 150 refunded as 50 + 50 + 50 |
| Money.ResidueIsRoundingError | internal/domain/money.go:10-28 | what rounding adds or takes is a function of the amount's last digits: the hundredths of its 3%, centred, ties by the amount modulo 200 |
| Money.FeesAddUpIff | usecases.md:128 | for any amounts the sum of the fees is the fee of the sum exactly when their residues cancel to less than one half, or to one half with an even outcome |
| FeeSums.SettledTotalIff | usecases.md:128 | after any run without a settled refund on the cell, its balance is X less the rounded fee of X, X the amounts ever settled, if and only if the residues of those amounts cancel |
| FeeSums.BalanceEquationIff | usecases.md:128 | the same with settled refunds taken off both totals, as long as X is not negative |
| FeeSums.EquationFallsShort | usecases.md:128 | for every n a run of n settled payments of 50 whose balance is 48n, at least (n - 1) / 2 short of the documented one; 144 and not 146 for three |
| Money.MachineFeeIsExactIff | internal/domain/money.go:10-28 | over all non-negative 64-bit amounts, wrap-around included, the machine fee is the mathematical one if and only if amount <= (2^63 - 1) / 300 |
| Calendar.DayNumberOrder | internal/domain/domain.go:104-114 | the day count orders valid dates as the calendar does and determines them |
| Calendar.AdvanceMovesOnePeriod | internal/domain/domain.go:104-114 | a cadence moves a time by one day, seven days, or the days of its current month, exactly, keeping the time of day |
| Calendar.AdvanceIsForward | internal/domain/domain.go:104-114 | every valid cadence moves strictly forward; a month by 28 to 31 days |
| Calendar.MonthlyStep | internal/domain/domain.go:110-111 | a month later is the same day of the next month, or the first to third of the month after when there is no such day |
| Calendar.MonthlyClampsIff | internal/domain/domain.go:101-111 | rolling over agrees with the commented clamping rule exactly when the next month has the day |
| Calendar.JanuaryEndRollsOver | internal/domain/domain_test.go:53-56 | January 31 goes to March 3, where clamping would give February 28 |
| Calendar.MonthEndsRollOver | internal/domain/domain.go:110-111 | in every year, where a month leads from the last day of each of the twelve months, as literal dates: May 31 to July 1, July 31 to August 31 |
| Calendar.WithinTheMonth | internal/domain/domain.go:104-114 | up to the 28th a month later is the same day of the next month; a day and a week later are one and seven days on |
| Calendar.MonthsOfTheYear | internal/domain/domain.go:104-114 | month lengths by a closed form and the leap rule |
| Calendar.StampOrder | internal/domain/domain.go:104-114 | points in time are ordered by date, then by time of day |
| Calendar.DayChangesAtMostOnce | internal/domain/domain.go:104-114 | over an infinite monthly schedule the day of the month changes at most once, to the first, second or third |
| Calendar.AtMostOneMonthSkipped | internal/domain/domain.go:104-114 | the k-th charge falls k months after the start, or k + 1 once the day has changed |
| Ledger.StepKeepsAccounts | store/postgres/store.go:248-347 | every call keeps: refunded is the sum of the refund rows, 0 <= refunded <= amount, refunded status iff refunded = amount, no refunds before capture |
| Ledger.RunKeepsAccounts | store/postgres/migrations/00004_normalize_merchants_customers.sql:29-72 | the same in every reachable state, so the schema's checks and references never fire |
| Ledger.RunPreserves | store/postgres/store.go:247-347 | nothing is deleted; parties, amount, currency, method, creation time and network fee of a payment never change; declined and refunded are final |
| Ledger.StatusFollowsMoves | store/postgres/store.go:247-347 | a status changes only along the moves of the state machine; capture, settlement and refund are accepted exactly when they have one to make |
| Ledger.RefusedCallsChangeNothing | store/postgres/store.go:258-267 | a call answered with an error leaves every row as it was |
| History.RunIsItsHistory | internal/store/store.go:29-47 | over any run every reply, its error or all of its fields, is the one told by the calls accepted before; every payment and refund row is the one told by all of them |
| History.DocumentsAnswerFromHistory | store/mongo/store.go:265-641 | the document store answers from the same history, up to updated_at |
| History.RefundedIsWhatWasAsked | store/postgres/store.go:286-335 | over any run refunded is the sum of the amounts of the accepted refund calls on the payment, and each refund row carries its call's payment, amount and time |
| History.BalancesAreTheirHistory | store/postgres/store.go:616-724 | over any run a cell is the amounts of the accepted settlements less their fees, less the amounts asked for by the refunds settled, with their fees |
| Behaviour.FirstMoves | store/postgres/store.go:130-141 | a new payment accepts a capture iff it is a direct debit, a settlement iff it is a bank transfer or an undeclined card or wallet, a refund iff it is the latter |
| Behaviour.DeclinedIff | store/mongo/store.go:289-300 | over any run a payment is declined iff its create was a card or wallet with an amount ending in 13 |
| Behaviour.CreateAcceptedIff | store/postgres/store.go:114-128 | a create is accepted iff currency and method are known, the amount is positive and neither id is all white space |
| Behaviour.RefundIsRecorded | store/postgres/store.go:272-347 | an accepted refund adds one row of the amount asked for, moves the counter by it, answers it with the payment's merchant and currency, and leaves all else |
| Behaviour.WhoMayRead | store/postgres/store.go:206-226 | over any run an admin reads all payments created, merchants and customers exactly those created with their own id, others none; forbidden if it exists, else not found |
| Behaviour.WhichError | store/postgres/store.go:258-318 | which of not found, invalid state and over-refund is answered, by id, status and amount left |
| Lifetime.StepUsesUp | store/mongo/store.go:356-641 | each call that changes a payment uses up one of its kind and no call gives any back |
| Lifetime.RunUsesUp | store/mongo/store.go:356-641 | a run holds no more changing calls of a kind than the payment had left |
| Lifetime.BoundedLifetime | store/mongo/store.go:356-641 | after creation at most one capture, one settlement, one network fee, `amount` refunds and as many refund settlements ever change a payment: 3 + 2 * amount changes in all |
| Lifetime.EveryChangeIsCounted | store/mongo/store.go:356-641 | a call that counts as no change leaves the payment's row and all its refunds as they were |
| Balances.StepMovesLedger | store/postgres/store.go:667-717 | the ledger recomputed from history moves by exactly what a call posts, in every scope |
| Balances.StepConserves | store/postgres/store.go:616-724 | cells that agree with the recomputed ledger still do after any call and its posting |
| Balances.SharesAddUp | internal/domain/domain.go:180-187 | net amounts plus fees are the gross amounts, without remainder |
| Balances.OneCellSum | store/postgres/store.go:616-631 | a one-cell sum is the value of that cell |
| Balances.RankIsCodeOrder | store/postgres/store.go:742-748 | balance and revenue rows are ranked as the currency codes are ordered |
| Relational.ApplyKeepsSound | store/postgres/store.go:113-347 | one committed call keeps accounting, booked payments, conservation and all references between tables |
| Relational.LedgerConservation | store/postgres/store.go:618-724 | after any run each cell is the net amounts ever settled less those refunded, fees likewise, and their total is the gross difference |
| Relational.OtherCellsUntouched | store/postgres/store.go:616-724 | only settling moves a cell, and only the one of its payment |
| FeeDrift.FullyRefundedFeeDrift | internal/domain/money.go:10-28 | in every reachable state, for a payment refunded in full by n settled refunds: if it was ever settled, the net fee left is at most (n + 1) / 2 either way; if not, the net fee is minus its own fee within that bound |
| FeeDrift.CellFeesAreNetFees | store/postgres/store.go:616-724 | after any run the fees of a cell are the net fees of its payments, added up |
| FeeDrift.UnsettledRefundGoesNegative | store/mongo/store.go:543-594 | a refund settled on a captured payment that was never settled drives its cell below zero by the full share |
| PostgresStore.PgStore.CreatePayment | store/postgres/store.go:113-177 | one transaction of parents and payment, with the first status by method and amount; on a failed commit nothing changes and no actor is remembered |
| PostgresStore.PgStore.UpsertParties | store/postgres/store.go:179-198 | skipping cached actors leaves the same parent rows as inserting both |
| PostgresStore.PgStore.SelectPayment | store/postgres/store.go:228-245 | the payment by id, or not found |
| PostgresStore.PgStore.GetPayment | store/postgres/store.go:206-226 | an admin reads all, a merchant or customer its own, others are refused |
| PostgresStore.PgStore.CapturePayment | store/postgres/store.go:247-270 | the conditional update with its diagnosis is the ledger's capture, and keeps the whole invariant |
| PostgresStore.PgStore.RefundPayment | store/postgres/store.go:272-347 | three writes in one transaction are the ledger's refund with its four refusals, recording the amount asked for; a failed commit changes nothing |
| PostgresStore.PgStore.CreditBalance | store/postgres/store.go:616-631 | the upsert adds both deltas to one cell, creating it at need |
| PostgresStore.PgStore.SettlePayment | store/postgres/store.go:633-675 | status flip and credit together, once per payment; conservation is kept |
| PostgresStore.PgStore.SettleRefund | store/postgres/store.go:677-724 | status flip and debit together, once per refund; conservation is kept |
| PostgresStore.PgStore.SettleNetworkFee | store/postgres/store.go:726-740 | fills an empty fee only; status and balances stay |
| PostgresStore.PgStore.GetMerchantBalances | store/postgres/store.go:742-766 | one row per cell of the merchant, ascending by currency |
| PostgresStore.PgStore.AdminRevenueReport | store/postgres/store.go:793-818 | one row per currency in use; each total is the fees recomputed from history |
| Documents.DocWriteAgrees | store/mongo/store.go:265-641 | a document write answers as the row transition does, leaves the same posting, and keeps documents and rows matching |
| Documents.GiveBackMatches | store/mongo/store.go:356-434 | one write of counter, status and embedded refund is the row update plus the refund row |
| Documents.SettleRefundAgrees | store/mongo/store.go:548-591 | finding and flipping the embedded refund is flipping its row, with the same refusals |
| Documents.WhereEmbedded | store/mongo/store.go:548-588 | a refund's row is embedded in its payment's document, at one position and nowhere else |
| Documents.IncPosts | store/mongo/store.go:478-495 | the dotted-path increment is the cell upsert |
| Agreement.CallAgreesIff | store/mongo/store.go:265-641 | from related stores, one call gets equal replies up to updated_at if and only if it is not a network fee of zero or less |
| Requests.StoresAgreeIff | internal/store/store.go:29-60 | over any run of calls, listings, balance lists and revenue reports all answers agree, up to updated_at, if and only if every network fee is positive, and then the stores hold the same data |
| Requests.StoresAgreeFromEmptyIff | internal/store/store.go:29-60 | the same from two empty stores |
| Requests.ReadsAgree | store/mongo/store.go:662-872 | from related stores every listing, balance list and revenue report is answered alike |
| Requests.BalanceListIsAnswer | store/postgres/store.go:742-766 | the list either store is proved to return is the answer in those runs |
| Requests.ReportIsAnswer | store/postgres/store.go:793-818 | likewise for the revenue report |
| Agreement.BalanceListIsUnique | store/mongo/store.go:766-791 | equal cells give equal balance lists in both stores |
| Agreement.RevenueReportIsUnique | store/mongo/store.go:838-872 | equal cells give equal revenue reports in both stores |
| MongoStore.MongoDb.OnboardActors | store/mongo/store.go:126-151 | with a cache, the same merchant and customer documents as without |
| MongoStore.MongoDb.CreatePayment | store/mongo/store.go:265-316 | onboarding and insert are the call on documents, with the first status by method and amount, and the normalised rows follow the relational call |
| MongoStore.MongoDb.CapturePayment | store/mongo/store.go:438-474 | the same for a capture |
| MongoStore.MongoDb.RefundPayment | store/mongo/store.go:345-434 | the same for a refund, in one document write that records the amount asked for |
| MongoStore.MongoDb.ApplyBalanceDelta | store/mongo/store.go:478-495 | one increment of both counters, creating what is missing |
| MongoStore.MongoDb.SettlePayment | store/mongo/store.go:497-541 | undisturbed, flip and increment are one relational settlement |
| MongoStore.MongoDb.SettleRefund | store/mongo/store.go:543-598 | undisturbed, flip, search of the element and increment are one relational refund settlement |
| MongoStore.MongoDb.SettleNetworkFee | store/mongo/store.go:600-641 | set once; a fee of zero or less is refused and changes nothing |
| MongoStore.MongoDb.GetPayment | store/mongo/store.go:318-343 | scoped reads as on the other store |
| MongoStore.MongoDb.GetMerchantBalances | store/mongo/store.go:766-791 | the balance list of the same cells as the relational rows |
| MongoStore.MongoDb.AdminRevenueReport | store/mongo/store.go:838-872 | unwinding and grouping the balance maps gives the same report, equal to the fees recomputed from history |
| TwoWrite.ActKeepsInv | store/mongo/store.go:483-598 | every atomic step of any caller, and any crash, keeps applied postings equal to the cells and all flights equal to the ledger |
| TwoWrite.IncrementsAreMadeOnce | store/mongo/store.go:500-507 | over every interleaving and crash a flight is incremented for as often as it ends up applied, at most once, and each settled payment or refund has one flight |
| TwoWrite.TwoWriteSettlementIsSafe | store/mongo/store.go:483-598 | over every interleaving and crash, cell plus outstanding plus lost is the ledger; one flight per settled payment and refund; nothing outstanding or lost means equal |
| TwoWrite.CrashLosesTheCredit | store/mongo/store.go:503-507 | a crash between the two writes leaves a settled payment and its net amount missing |
| Listing.WalkIsSortedFilter | store/postgres/store.go:397-441 | following cursors to the end yields exactly the matching payments, newest first, each once, in max(1, ceil(n / 50)) pages |
| Listing.WalkReturns | store/postgres/store.go:360-411 | what a walk returns, field by field, with the merchant scope winning over the merchant filter, and in which order |
| Listing.WhoseListing | store/mongo/store.go:643-661 | a merchant's walk holds only its own payments whatever its filter says, and all of them without one; an unfiltered admin walk holds all |
| Listing.RestOfListing | store/postgres/store.go:402-404 | the keyset predicate at a row leaves exactly the rest of the listing, ties included |
| Listing.ListsUnique | store/postgres/store.go:411 | there is one newest-first order of any set of payments |
| Listing.WalkSurvivesInserts | store/mongo/store.go:702-734 | with rows inserted between pages and filters on immutable fields, nothing comes twice and all that was there at the first page comes |
| ListingStores.TakeNewest | store/postgres/store.go:411-433 | ORDER BY and LIMIT are the head of the sorted rows |
| ListingStores.WhereMeansPasses | store/postgres/store.go:370-396 | the appended conditions hold of exactly the payments that pass the filter |
| ListingStores.PgListPayments | store/postgres/store.go:360-442 | conditions, one row more than a page, and the cut give the specified page; a bad cursor is an invalid state |
| ListingStores.QueryMeansPasses | store/mongo/store.go:663-698 | the per-field query admits exactly the payments that pass the filter |
| ListingStores.MongoListPayments | store/mongo/store.go:662-741 | the document query gives the same page |
| ListingStores.ListingsAgree | store/mongo/store.go:662-741 | over matching data both stores give the same page and cursor for every listing |
| Charging.ActKeepsSchedule | internal/cycler/cycler.go:89-106 | every step of any worker keeps all subscriptions and all held snapshots on schedule |
| Charging.AdvanceIsNeverRefused | internal/cycler/cycler.go:101-104 | after any run, a worker that has booked a payment can compute and make the move that follows |
| Charging.ScheduleIntegrity | store/postgres/store.go:566-575 | after any run next_charge_at is the cadence applied next_cycle_index times to the start, for subscriptions and snapshots |
| Charging.ExactlyOnce | internal/cycler/cycler_test.go:52-86 | with honoured keys, exactly one payment per cycle below k, at most one for k, none beyond |
| Charging.AtLeastOnce | store/mongo/store.go:265 | with ignored keys, at least one payment per cycle below k and none beyond k |
| Charging.StepRepeatsIff | store/postgres/store.go:113 | with ignored keys, from a state without repeats, a step doubles a charge if and only if it is a create whose cycle already has a payment |
| Charging.ShippedExactlyOnceIff | usecases.md:100-103 | with ignored keys, over any run of any workers: every charge is exact if and only if no create meets that guard |
| Charging.DuplicatesWithoutKeys | store/postgres/store.go:113 | with ignored keys, for every n a run that charges one cycle n times |
| Charging.CancelledIsNotFetched | usecases.md:105-117 | once cancelled, a subscription stays so over any run, is in no batch fetched, and is charged at most once for each snapshot already held and not yet charged |
| CyclerDrain.ChargeTakesOnePeriod | internal/cycler/cycler.go:101-104 | serving a due subscription takes exactly one overdue period off the total |
| CyclerDrain.SubStore.DueSubscriptions | store/mongo/store.go:1040-1067 | the earliest due subscriptions, each once, as many as the limit allows |
| CyclerDrain.SubStore.AdvanceSubscription | store/mongo/store.go:1069-1085 | compare-and-set on the cycle index; an outage changes nothing |
| CyclerDrain.Cycler.ChargeOne | internal/cycler/cycler.go:86-106 | the payment first, then the move; neither when the payment fails, the payment alone when the move fails |
| CyclerDrain.Cycler.Tick | internal/cycler/cycler.go:68-84 | each success takes one period off; each cycle moved past gets exactly one payment and no other cycle any, for every subscription whose move does not fail after its payment, at least that for the others |
| CyclerDrain.Cycler.Drain | usecases.md:98-103 | for a fixed clock the non-empty ticks end, within the overdue periods; over all of them each cycle moved past gets exactly one payment unless a move failed, and without outages every subscription moves past exactly its overdue periods |
| CyclerDrain.DrainedExactly | internal/cycler/cycler.go:43-66 | with nothing overdue left, every subscription has moved on by exactly the periods that were |
| CyclerDrain.CancelledStaysPut | usecases.md:105-117 | whatever is served, a cancelled subscription stays at its cycle |
| Replay.ActKeepsInv | internal/api/idempotency.go:69-113 | every step keeps records genuine and runners' lookups before the insert, unless expired |
| Replay.LiveRecordReplay | internal/api/idempotency.go:69-113 | while a record lives it is never overwritten, and later requests get the winner's status and bytes or a conflict, without running the handler |
| Replay.DuplicatesPrecedeInsert | internal/api/idempotency.go:95-110 | requests that ran the handler on a live key are those whose lookup preceded the winning insert |
| Replay.KeptExpiredRowNeverReplays | internal/api/idempotency_test.go:172-179 | on a store that keeps expired rows an expired key never replays again |
| Replay.ExpiredRowStaysIff | internal/api/idempotency.go:43 | over any run an expired record is still there, unchanged, if and only if its key was not vacuumed |
| Replay.InsertRenewsIff | internal/api/idempotency.go:95-110 | a successful insert after expiry leaves the key with a newer record if and only if the key was vacuumed, and with its own exactly when no other came first |
| Replay.VacuumedKeyIsNew | store/mongo/store.go:98-104 | in any run past an expired row that is gone: the next lookup runs the handler, its insert stands while it lives, and all later requests on the key are answered from it |
| Replay.ReplayFromTheStart | internal/api/idempotency.go:39-43 | from an empty cache, after any run: a live record stays and answers every later request, and only requests that looked before its insert ran the handler |
| Replay.KeptIff2xx | internal/api/idempotency.go:95-110 | an insert on a free key keeps the response exactly when its status is in the 200s and touches no other record |
| Replay.FailuresAreRetried | internal/api/idempotency.go:95-96 | over any run from an empty cache records are in the 200s; as long as all answers on a key are outside, it has no record, nothing on it is replayed or refused, and every lookup runs the handler |
| Replay.RunKeepsSecondHand | internal/api/idempotency.go:72-88 | every replay is a finished request's own answer in the 200s to the same body, every conflict is with such a request of another body |
| Replay.AnsweredUntilExpiry | internal/api/idempotency.go:72-88 | an answer put at t with ttl is given until t + ttl and not after, whatever happens but a vacuum |
| Middleware.Recorder.WriteHeader | internal/api/idempotency.go:124-131 | the first status wins, in the recorder and on the wire |
| Middleware.Recorder.Write | internal/api/idempotency.go:133-139 | bytes without a status send 200 first; recorder and wire stay equal |
| Middleware.Recorder.Serve | internal/api/idempotency.go:92-96 | what is recorded is what the client receives is what the handler sent |
| Middleware.ServeHTTP | internal/api/idempotency.go:44-114 | the whole decision, with literal statuses: pass-through, missing key, unreadable body, failed lookup, conflict, replay, or run the handler and keep a response in the 200s |
| FeeWorker.MockFeeIsPositive | cmd/fee-worker/main.go:27-31 | the mock fee of a non-negative amount is 20 and the whole part of its 25 basis points, so neither store refuses it |
| FeeWorker.FeesDependOnProcessedOnly | cmd/fee-worker/main.go:81-95 | for any publications and deliveries between any calls of others: the store is what those calls alone leave, but for update times and fees, and a fee is the one there was or else the mock fee if the message was processed |
| FeeWorker.RedeliveryConfluence | cmd/fee-worker/main.go:81-95 | two such histories around the same calls that processed the same payments leave the same fees and the same rows |
| FeeWorker.FirstFeeStays | store/mongo/store.go:600-604 | the fee of the first processed delivery stays, whatever amounts are delivered and calls made later |
| FeeWorker.DeletedOnlyWithFee | cmd/fee-worker/main.go:85-94 | over any such history a well-formed published message is gone only once its payment carries a fee |
| FeeWorker.DeliveryOutcome | cmd/fee-worker/main.go:82-94 | which deliveries delete their message and which record a fee, and how much |
| FeeWorker.Worker.Handle | cmd/fee-worker/main.go:82-94 | one message against the store: dropped, kept for redelivery, or recorded and deleted |
| FeeWorker.Worker.Consume | cmd/fee-worker/main.go:81-95 | the receive loop is those deliveries in order; balances stay |
| Onboarding.ActKeepsCoherent | store/postgres/store.go:179-204 | every step keeps seen actors committed and children with their parents |
| Onboarding.FinishInserts | store/postgres/store.go:154-176 | finishing a create inserts its child with both parents committed; no other step does, none removes anything |
| Onboarding.CachesAreCoherent | store/mongo/store.go:126-151 | over any run of several processes caches hold only committed actors, children have parents, and the tables equal those without caches |
| Onboarding.TransactionsLeaveNoOrphans | store/postgres/store.go:154-176 | in transactions no rolled-back create leaves an actor behind |
| Onboarding.UpsertsMayLeaveOrphans | store/mongo/store.go:282-286 | on the document store a crash between upsert and insert leaves one |

## Left out

- HTTP routing, JSON, headers, role checks, web pages, deployment, seeding and configuration: plumbing.
- Database internals: one document update and one transaction are taken as atomic; `FOR UPDATE SKIP LOCKED` outside a transaction is a plain read.
- The second read that classifies a failed conditional update: it is made in the same instant here, so its races are not modelled.
- 64-bit overflow outside the fee: amounts and balances are unbounded; the fee's range is `Money.MachineFeeIsExactIff`.
- Transport errors other than a failed commit, an outage of a payment create, an unreachable store or a failed insert of a record.
- sha256, cursor encoding, random ids: equal hashes mean equal bodies, decoding undoes encoding, ids are fresh.
- Time zones, timestamp precision and string collation: one order of times and ids.
- Agreement.CallAgreesIff: amounts are unbounded; a refund that takes the refunded sum beyond 64 bits is a raw error in the relational store and an over-refund in the other.
- Requests.StoresAgreeIff: likewise, so agreement is claimed while refunded sums fit 64 bits.
- Requests.StoresAgreeFromEmptyIff: likewise.
- AdminVolumeReport and AdminBalanceReport: grouping and sorting without effect on the ledger.
- Creating and cancelling subscriptions as store calls: their validation and onboarding repeat CreatePayment's; here they are steps of `Charging`.
- CancelSubscription's scoping, checked after the write by its handler.
- ListingStores.TakeNewest: selects the newest row repeatedly instead of reading an index; only the rows it returns are claimed.
- MongoStore.MongoDb.SettlePayment: its two writes follow each other undisturbed in the class; `TwoWrite` has the interleavings.
- MongoStore.MongoDb.SettleRefund: likewise.
- CyclerDrain.Cycler.Drain: stops at the first tick that charges nothing instead of sleeping and polling again.
- Middleware.ServeHTTP: takes the key header already trimmed and the handler as the sequence of its writes.
