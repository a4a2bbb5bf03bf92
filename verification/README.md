# A verified model of the lending protocol

The application lends money against items kept in vaults. A borrower lists a custody receipt, lenders make offers
whose principal is set aside in a double-entry ledger, and an acceptance turns the winning hold into a disbursement
and pledges the receipt to a new loan. A loan is repaid, or defaults after its grace; then the note holder claims the
receipt, or it is sold in an auction whose winning bid is paid out by a waterfall. This project models that protocol
in Dafny and proves what it guarantees over every run, together with the concurrency protocols, the arithmetic and
the orderings underneath it.

`dafny verify dfyconfig.toml` checks everything.

## How the model is laid out

- **The transition system.** `Protocol` has one state (ledger with holds, listings with their offers, loans, receipts,
  sales with their bids, clock and pause flag) and one step per use case, each with its error paths in the order of
  the source. `Frames` says which tables each step writes and `Invariant` what every reachable state keeps;
  `Preservation` and `HoldEffects` prove that every step keeps it, and `Theorems`, `Operations`, `Settlement`,
  `Refusals`, `Collateral`, `Histories` and `Exits` say what that means. `Scenarios` holds concrete runs that show the
  limits of those guarantees.
- **The aggregates and their arithmetic.** `Marketplace`, `Loans`, `Liquidations`, `CustodyReceipts`, `Interest`,
  `Waterfall`, `Money`, `Distributions`, `LedgerTransaction` and `Ledger` are the pure parts the steps are made of.
- **The imperative layer.** `LedgerSettlementAdapter` writes journal and holds statement by statement, and `UseCases`
  performs each use case on mutable tables inside a unit of work. Each method is proved to be the step or ledger
  operation of the same name, so what is proved of runs holds of sequences of method calls.
- **The concurrency protocols.** `ConcurrentLedger` (row locks around derived balances), `ConcurrentVaults` (issuance
  under the vault lock), `VersionedReceipts` (version-checked saves), `Outbox` with `OutboxDrainWorker`, and
  `Idempotency` with `Executions` split operations into the statements of concurrent transactions and quantify over
  every interleaving.
- **Orderings and canonical forms.** `StableSorting` and `CodeUnits` support `RankOffers`, `Pagination` and
  `IntakeRecords`.
- **The vault.** `VaultCustody` follows a receipt from a sealed intake to the handover of the item.

## Assumptions

- A use case is one transaction. A thrown error rolls everything back; a returned failure commits what was written
  before it. Only the close of a sale returns a failure after writing, and that path is proved unreachable.
- The clock never runs backwards. Generated ids are fresh (a duplicate is refused), and user ids differ from the
  platform's sentinel accounts.
- Everything is in AUD except `LedgerTransaction.Build`, which balances per currency.
- Request bounds the API enforces before a use case (rates in basis points as naturals, appraisals not negative) are
  types or preconditions.
- A settlement reference is the transaction's position in the journal. Offers and bids stand in placement order; the
  repositories reload them by id, and no figure depends on the order (`Liquidations.HighestIgnoresOrder`).
- Reads see the last committed state, as at the READ COMMITTED isolation level, and a row lock is held until the end
  of its transaction.

## Where the code does not do what one might expect

- The collateral agreement (one live loan per receipt, an active loan's receipt encumbered by it) fails when a claimed
  receipt is pledged again while its first loan is still DEFAULTED, because a claim leaves the loan's status alone and
  nothing compares loan ids. `Collateral.CollateralAgreesStrongly` gives the exact condition over runs,
  `Collateral.AcceptanceKeepsStrongExactlyWhen` over one step, and `Scenarios.RepledgingBreaksTheStrongAgreement` a run.
- A claimed receipt that has been redeemed can no longer be burned for its sale, so the sale never closes, and once
  bidding is over its high bid has no exit: `Exits.HighBidHasAnExitExactlyWhen`, with a run in
  `Scenarios.ATrappedBidIsReachable`.
- An acceptance keeps its zero lines, unlike a close: a fee or a disbursement that rounds to 0 aborts it
  (`Theorems.AcceptanceSucceedsExactlyWhen`, `Scenarios.AZeroLineAbortsTheAcceptance`).
- A payoff quote dated in the future can be stale now and fresh later (`Interest.StaleStaysStale`,
  `Scenarios.AFutureQuoteBecomesFresh`).
- A PENDING offer may have a refunded hold, reclaimed after it expired; withdrawing it afterwards succeeds and moves
  nothing (`Operations.WithdrawOfferExactlyWhen`).
- A drain that stalls past the visibility window can dead letter an event another drain has published: recording a
  failure addresses the row by id, whoever holds the claim. `Outbox.PublishedCanBeDeadLetteredExactlyWhen` gives the
  exact condition and `Outbox.StallingCanDeadLetterAPublishedEvent` a run.
- A request that executes past its idempotency row's expiry completes or releases whatever row its key has by then,
  because both statements look the key up again (prisma-idempotency-store.ts:68-84). So a repeat can be answered with
  another request's response, and a request can be executed twice at once. `Executions.TouchedByAnotherExactlyWhen`
  gives the exact condition at every point, `Executions.RowsOutliveExecutionsExactlyWhen` over runs, and
  `Executions.AnOverrunAnswersForAnother` and `Executions.AnOverrunLetsARequestRunTwice` two runs.
- Evidence labels may contain the separator of the sort key, so the canonical intake form is independent of order only
  because content hashes have one length (`IntakeRecords.KeysCanCollide`).

## Model

| member | source | states |
|---|---|---|
| `Money.BasisPointsWithin` | apps/api/src/domain/shared/money.ts:40-48 | a cut of at most 10 000 basis points of a non-negative amount, truncated, lies between nothing and the whole |
| `Money.RemainderMonotone` | apps/api/src/domain/shared/money.ts:40-48 | what is left after the cut never shrinks when the whole grows |
| `Interest.AccruedIsFloor` | apps/api/src/domain/lending/interest-calculator.ts:8-37 | accrued interest is the exact interest over the elapsed time, clamped between start and maturity, rounded down; truncation and flooring agree because the numerator is never negative |
| `Interest.NothingBeforeStart` | apps/api/src/domain/lending/interest-calculator.ts:8-20 | a clock at or before the start accrues nothing |
| `Interest.ConstantFromMaturity` | apps/api/src/domain/lending/interest-calculator.ts:8-37 | from maturity on the figure is the figure at maturity |
| `Interest.AccruedMonotone` | apps/api/src/domain/lending/interest-calculator.ts:21-37 | interest never falls when time, principal or rate grows |
| `Interest.SplitLosesAtMostOne` | apps/api/src/domain/lending/interest-calculator.ts:21-37 | accruing two adjacent stretches falls short of accruing the whole by at most one minor unit, never the other way |
| `Interest.StaleStaysStale` | apps/api/src/modules/lending/application/repay-loan.use-case.ts:69-76 | a stale quote stays stale for ever exactly when it was not dated ahead of the clock: a future-dated quote is fresh again when its instant comes |
| `Waterfall.PartsAreTheWhole` | apps/api/src/domain/lending/liquidation-waterfall.ts:18-47 | four lines that sum to the proceeds; none negative; the note holder gets the smaller of proceeds and debt; once the debt is met the platform gets its share of the rest rounded down and the borrower what then remains; the rounding line is 0 |
| `Waterfall.PaysEachParty` | apps/api/src/domain/lending/liquidation-waterfall.ts:18-47 | what each party receives from all lines together, also when one user is note holder and borrower |
| `Waterfall.EveryLineMonotone` | apps/api/src/domain/lending/liquidation-waterfall.ts:18-47 | a higher price lowers nobody's line |
| `Distributions.DropEmptyKeepsTotal` | apps/api/src/modules/lending/application/close-liquidation.use-case.ts:98 | leaving out the zero lines changes no total |
| `Distributions.DropEmptyPaysTheSame` | apps/api/src/modules/lending/application/close-liquidation.use-case.ts:98 | leaving out the zero lines pays every party the same |
| `Distributions.DropEmptyIsPositive` | apps/api/src/modules/lending/application/close-liquidation.use-case.ts:98 | what is left of a non-negative distribution is strictly positive, as the ledger requires |
| `LedgerTransaction.Build` | apps/api/src/domain/ledger/ledger-transaction.ts:48-76 | the loop over running sums per currency accepts a list exactly when it has two entries, every amount is positive, and debits equal credits in every currency, and names the first reason otherwise |
| `LedgerTransaction.ReleaseBuildable` | apps/api/src/infrastructure/settlement/ledger-settlement.adapter.ts:105-128 | the entries of a release are a valid transaction exactly when somebody is paid, nobody is paid nothing, and the payments sum to the hold |
| `LedgerTransaction.ReleasePays` | apps/api/src/infrastructure/settlement/ledger-settlement.adapter.ts:105-128 | a release takes the hold off its owner's held account and moves every party's own account by exactly what its lines say |
| `LedgerTransaction.PairBuildable` | apps/api/src/infrastructure/settlement/ledger-settlement.adapter.ts:187-192 | a two-entry movement is valid exactly when its amount is positive |
| `Ledger.HoldKeepsSound` | apps/api/src/infrastructure/settlement/ledger-settlement.adapter.ts:53-89 | taking a hold keeps the books sound: held balances equal the held holds, nothing but the float is overdrawn, settled holds and settlements match one to one |
| `Ledger.ReleaseKeepsSound` | apps/api/src/infrastructure/settlement/ledger-settlement.adapter.ts:91-131 | a release keeps the books sound |
| `Ledger.RefundKeepsSound` | apps/api/src/infrastructure/settlement/ledger-settlement.adapter.ts:133-160 | a refund keeps the books sound |
| `Ledger.TransferKeepsSound` | apps/api/src/infrastructure/settlement/ledger-settlement.adapter.ts:162-193 | a transfer keeps the books sound |
| `Ledger.BalancesSumToZero` | apps/api/src/domain/ledger/ledger-transaction.ts:48-76 | on sound books the balances of any set of accounts that covers the journal sum to zero |
| `Ledger.SettledAtMostOnce` | apps/api/src/infrastructure/settlement/ledger-settlement.adapter.ts:91-160 | two settlements of one hold are the same transaction |
| `Ledger.RefundReturnsTheMoney` | apps/api/src/infrastructure/settlement/ledger-settlement.adapter.ts:133-160 | refunding a held hold moves exactly its amount back to its owner and nothing else, and repeating it names the same transaction and moves nothing |
| `LedgerSettlementAdapter.Adapter.BalanceOf` | apps/api/src/infrastructure/settlement/ledger-account-directory.ts:68-75 | the sum over every entry is the balance the specification defines |
| `LedgerSettlementAdapter.Adapter.Write` | apps/api/src/infrastructure/settlement/ledger-settlement.adapter.ts:223-262 | appends the built transaction to the journal, or throws what building it throws |
| `LedgerSettlementAdapter.Adapter.Hold` | apps/api/src/infrastructure/settlement/ledger-settlement.adapter.ts:53-89 | performs the ledger's hold: balance check, transaction, hold row |
| `LedgerSettlementAdapter.Adapter.ReleaseHold` | apps/api/src/infrastructure/settlement/ledger-settlement.adapter.ts:91-131 | the summing loop, the loop that pushes one credit per line, and the status write together perform the ledger's release, including its idempotent answer |
| `LedgerSettlementAdapter.Adapter.RefundHold` | apps/api/src/infrastructure/settlement/ledger-settlement.adapter.ts:133-160 | performs the ledger's refund, including its idempotent answer |
| `LedgerSettlementAdapter.Adapter.Transfer` | apps/api/src/infrastructure/settlement/ledger-settlement.adapter.ts:162-193 | performs the ledger's transfer and touches no hold |
| `ConcurrentLedger.EveryInterleavingIsSerial` | apps/api/src/infrastructure/settlement/ledger-settlement.adapter.ts:53-193 | with lock, read, write and commit as separate statements of any number of transactions, the committed ledger is always what the committed operations make one at a time in commit order; so no account but the float is overdrawn, held balances agree with the holds, and no hold is settled twice |
| `ConcurrentLedger.CommitIsAtomic` | apps/api/src/infrastructure/settlement/ledger-settlement.adapter.ts:53-193 | committing is performing the operation atomically on the state committed by then |
| `ConcurrentLedger.NothingCommitsOnAStaleRead` | apps/api/src/infrastructure/settlement/ledger-account-directory.ts:62-75 | every operation that commits would succeed on the ledger as it stands at its commit |
| `ConcurrentLedger.ReadsSurviveCommit` | apps/api/src/infrastructure/settlement/ledger-account-directory.ts:62-75 | what a transaction read under its row lock stays true across the commits of others |
| `ConcurrentLedger.LoneTransactionIsItsOperation` | apps/api/src/infrastructure/settlement/ledger-settlement.adapter.ts:53-193 | with its row unlocked, an undisturbed transaction does to the ledger exactly what its operation does at once, leaves it alone exactly when that is refused, and gives up its lock |
| `ConcurrentLedger.AbortLeavesNothing` | apps/api/src/infrastructure/persistence/prisma-unit-of-work.ts:20-28 | a transaction aborted at any statement leaves the ledger alone and no lock behind |
| `CustodyReceipts.EveryHistoryIsConsistent` | apps/api/src/domain/custody/custody-receipt.ts:26-167 | over every history a receipt is encumbered exactly when it names a loan, what it was issued for never changes, and nothing follows a burn |
| `CustodyReceipts.EveryHistoryIsItsLastEvents` | apps/api/src/domain/custody/custody-receipt.ts:114-167 | over every history the holder is the last claimant or transferee, the last other event decides the status, and an encumbrance names its loan |
| `CustodyReceipts.TransitionRefusedExactlyWhen` | apps/api/src/domain/custody/custody-receipt.ts:114-177 | from which statuses each event moves a receipt, and which refusal it answers from the others |
| `Loans.TransitionsReconstruct` | apps/api/src/domain/lending/loan.ts:208-249 | on a constructed loan no transition fails in the constructor: it is refused exactly for its status or the clock |
| `Loans.AmountDueLaws` | apps/api/src/domain/lending/loan.ts:183-199 | what is due is the principal and the exact interest for the time run between start and maturity, rounded down; it never falls, is at least the principal, and from maturity on is one figure |
| `Loans.InterestIsUnique` | apps/api/src/domain/lending/loan.ts:183-199 | that statement of the interest leaves no other figure |
| `Marketplace.SupersedeOthers` | apps/api/src/domain/marketplace/listing.ts:292-306 | the loop returns the mapped offers and exactly the ids it superseded, in book order |
| `Marketplace.WithinCapExactlyWhen` | apps/api/src/domain/marketplace/loan-to-value-policy.ts:10-28 | a principal is within the cap exactly when its category has one and it is at most that share of the appraisal |
| `Marketplace.AcceptOfferOn` | apps/api/src/domain/marketplace/listing.ts:193-244 | the aggregate's acceptance performs its specification |
| `Marketplace.AcceptOfferExactlyWhen` | apps/api/src/domain/marketplace/listing.ts:193-244 | an offer is accepted exactly by the borrower while listing and offer are open and unexpired; the fee is the share of the principal rounded down |
| `Marketplace.AcceptanceSettlesTheBook` | apps/api/src/domain/marketplace/listing.ts:193-244 | an acceptance splits the principal exactly, accepts the named offer and no other, leaves nothing pending, supersedes exactly the other pending offers and disturbs no settled one |
| `Marketplace.CancelOn` | apps/api/src/domain/marketplace/listing.ts:246-263 | the aggregate's cancellation performs its specification |
| `Liquidations.HighestIsMaximum` | apps/api/src/domain/lending/liquidation.ts:189-195 | the reduce returns a bid of the book that no other exceeds, the first of them |
| `Liquidations.HighestIgnoresOrder` | apps/api/src/infrastructure/persistence/repositories/prisma-liquidation.repository.ts:64-70 | on a rising book any reordering, such as reloading by id, gives the same high bid |
| `Liquidations.PlacedBidRaisesTheBook` | apps/api/src/domain/lending/liquidation.ts:150-169 | an accepted bid keeps the book strictly rising and above the reserve and becomes the high bid |
| `Preservation.StepKeeps` | apps/api/src/infrastructure/persistence/prisma-unit-of-work.ts:20-28 | every use case, refused or not, keeps the invariant of ledger, holds, offers, bids, loans, receipts, listings and sales |
| `Preservation.RunKeeps` | apps/api/src/infrastructure/persistence/prisma-unit-of-work.ts:20-28 | so does every sequence of use cases |
| `Frames.StepFrame` | apps/api/src/infrastructure/persistence/prisma-unit-of-work.ts:20-28 | each use case writes only its own tables, and the clock never goes back |
| `Preservation.CloseIsWhole` | apps/api/src/modules/lending/application/close-liquidation.use-case.ts:118-124 | a close never takes the returned-failure path that would commit half of it: it writes everything or nothing |
| `Theorems.LedgerConserves` | apps/api/src/infrastructure/settlement/ledger-settlement.adapter.ts:53-262 | in every reachable state each held balance is the sum of that owner's held holds, no account but the float is negative, and the float is minus the total of the others |
| `Theorems.NoHoldSettlesTwice` | apps/api/src/infrastructure/settlement/ledger-settlement.adapter.ts:91-160 | over every run no hold is settled by two transactions |
| `Theorems.HoldBacksExactlyOne` | apps/api/src/modules/lending/application/accept-offer.use-case.ts:89-120 | in every reachable state each hold backs exactly one offer or bid, of the same owner and amount |
| `Theorems.OfferAndHoldAgree` | apps/api/src/modules/marketplace/application/reclaim-hold.use-case.ts:51-62 | offer and hold statuses correspond: ACCEPTED is RELEASED both ways, WITHDRAWN is REFUNDED, unexpired PENDING is HELD |
| `Theorems.AcceptanceSucceedsExactlyWhen` | apps/api/src/modules/lending/application/accept-offer.use-case.ts:70-157 | on a reachable state an acceptance succeeds exactly under guards checkable beforehand: pause, statuses, expiries, borrower, caps, receipt in the vault, and a floored fee strictly between nothing and the principal; the errors that say books and ledger disagree are never answered; a refusal changes nothing |
| `Theorems.AcceptancePaysTheHolder` | apps/api/src/modules/lending/application/accept-offer.use-case.ts:112-123 | the borrower paid is the receipt's holder although the acceptance never compares them, and the receipt names the new loan |
| `Theorems.OneLiveListingPerReceipt` | apps/api/src/modules/marketplace/application/create-listing.use-case.ts:73-86 | a receipt has at most one draft or active listing, a pledged receipt none, and a live listing's borrower is the receipt's holder |
| `Theorems.NoOfferMoneyTrapped` | apps/api/src/modules/marketplace/application/reclaim-hold.use-case.ts:41-75 | for a held offer hold past its expiry the lender's reclaim succeeds, paused or not, credits exactly the principal and moves nothing else; repeated it names the same transaction and changes nothing |
| `Theorems.AuctionBook` | apps/api/src/domain/lending/liquidation.ts:150-195 | in every reachable state bids rise strictly from the reserve, any reloading names the same high bid, and its money is held while the sale runs and released once it settles |
| `Theorems.HighBidStays` | apps/api/src/modules/lending/application/reclaim-bid.use-case.ts:57-59 | reclaiming the standing or winning bid is refused |
| `Theorems.BeatenBidIsReclaimable` | apps/api/src/modules/lending/application/reclaim-bid.use-case.ts:57-94 | every other bid's hold is refundable to its bidder, once for money and again for nothing |
| `Operations.DepositExactlyWhen` | apps/api/src/modules/ledger/application/deposit.use-case.ts:44-52 | a deposit succeeds exactly for a positive amount and moves it from the float to the user, nothing else |
| `Operations.IssueExactlyWhen` | apps/api/src/domain/custody/custody-receipt.ts:99-108 | a receipt enters the platform under a new id, in the vault and free, with exactly the given terms |
| `Operations.WithdrawExactlyWhen` | apps/api/src/modules/ledger/application/withdraw.use-case.ts:29-48 | a withdrawal succeeds exactly for a positive amount the user can spend and moves it to the float, nothing else |
| `Operations.CreateListingExactlyWhen` | apps/api/src/modules/marketplace/application/create-listing.use-case.ts:66-124 | a listing is drafted exactly for the holder of a receipt in the vault without a live listing, within rate and loan-to-value caps |
| `Operations.PublishAndCancelExactlyWhen` | apps/api/src/modules/marketplace/application/publish-listing.use-case.ts:52-79 | publication exactly by the borrower who still holds the receipt in the vault, before expiry; cancellation exactly by the borrower of a live listing, leaving no offer pending |
| `Operations.PlaceOfferExactlyWhen` | apps/api/src/modules/marketplace/application/place-offer.use-case.ts:63-130 | an offer is placed exactly when the listing takes it on those terms and the lender can spend the principal; the principal moves to the held account, the offer stands last in the book, and nothing else changes |
| `Operations.WithdrawOfferExactlyWhen` | apps/api/src/modules/marketplace/application/withdraw-offer.use-case.ts:42-72 | a withdrawal succeeds exactly for the lender of a pending offer past the minimum lifetime, and returns the principal unless it was already reclaimed; the offer becomes WITHDRAWN and nothing else changes |
| `Operations.ReclaimHoldExactlyWhen` | apps/api/src/modules/marketplace/application/reclaim-hold.use-case.ts:41-62 | a reclaim succeeds exactly for the lender of a superseded offer or of a pending one past its expiry |
| `Operations.AcceptancePostsOneTransaction` | apps/api/src/modules/lending/application/accept-offer.use-case.ts:112-157 | an acceptance posts one transaction that takes the principal from the lender's held account, pays the floored fee to the platform and the rest to the borrower, and opens a loan on the offer's terms |
| `Operations.RepayLoanExactlyWhen` | apps/api/src/modules/lending/application/repay-loan.use-case.ts:54-97 | a repayment succeeds exactly for the borrower of an active loan on a fresh quote, with payment and balance covering the due and the receipt pledged |
| `Operations.DefaultAndClaimExactlyWhen` | apps/api/src/modules/lending/application/claim-receipt.use-case.ts:40-59 | default exactly by the note holder of an active loan after grace; claim exactly by the note holder of a defaulted loan whose receipt is pledged, who becomes its holder |
| `Operations.RedemptionExactlyWhen` | apps/api/src/modules/custody/application/request-redemption.use-case.ts:55-66 | a receipt is burned for redemption exactly by its holder while it is in the vault |
| `Operations.ScheduleExactlyWhen` | apps/api/src/modules/lending/application/schedule-liquidation.use-case.ts:47-76 | one sale per defaulted loan, never before the holding period has run |
| `Operations.OpenExactlyWhen` | apps/api/src/modules/lending/application/open-liquidation.use-case.ts:37-55 | bidding opens exactly on a scheduled sale while not paused |
| `Operations.PlaceBidExactlyWhen` | apps/api/src/modules/lending/application/place-bid.use-case.ts:48-101 | a bid is taken exactly while bidding is open, at or above the reserve, above every earlier bid, and spendable; it moves to the held account, stands last in the book, and nothing else changes |
| `Settlement.RepaymentChargesTheQuote` | apps/api/src/modules/lending/application/repay-loan.use-case.ts:69-97 | a successful repayment posts exactly the quoted total, which is the principal and the interest for the time run rounded down, from the borrower to the note holder, ends the loan, frees the receipt and changes nothing else; a larger payment charges the same |
| `Refusals.RefusalsAreTruthful` | apps/api/src/infrastructure/persistence/prisma-unit-of-work.ts:20-28 | in every reachable state a refused use case changes nothing and the error it answers names a condition that really holds of the state and the request; the errors that would mean books and ledger disagree are never answered |
| `Settlement.SaleFollowsDefault` | apps/api/src/domain/lending/liquidation.ts:67-77 | start < maturity <= grace end < default <= opening, for every opened sale of every reachable state |
| `Settlement.CloseSucceedsExactlyWhen` | apps/api/src/modules/lending/application/close-liquidation.use-case.ts:55-124 | a sale closes exactly when it is bidding, has a bid and its receipt is not burned; no settlement error is answered and a refusal changes nothing |
| `Settlement.CloseSettlesTheDebtAtMaturity` | apps/api/src/modules/lending/application/close-liquidation.use-case.ts:86-114 | a close pays the winning bid out by the debt at maturity, principal and full-term interest: the note holder up to the debt, the platform its share of the rest rounded down, the borrower what remains; the hold is released, the receipt burned, loan and sale ended, and nothing else changes |
| `Collateral.PledgedReceiptNamesItsLoan` | apps/api/src/domain/custody/custody-receipt.ts:114-167 | an encumbered receipt always names a loan on it that is active or defaulted |
| `Collateral.AcceptanceKeepsStrongExactlyWhen` | apps/api/src/modules/lending/application/accept-offer.use-case.ts:122-157 | an acceptance keeps the strong collateral agreement exactly when no defaulted loan is still on the receipt |
| `Collateral.CollateralAgreesStrongly` | apps/api/src/modules/lending/application/claim-receipt.use-case.ts:52-59 | throughout a run each receipt has at most one live loan and every active loan's receipt is encumbered by exactly that loan, exactly when no acceptance of the run succeeds on a receipt that a defaulted loan still has |
| `Scenarios.RepledgingBreaksTheStrongAgreement` | apps/api/src/modules/lending/application/claim-receipt.use-case.ts:52-59 | a concrete run of claim and re-pledge that leaves one receipt with two live loans |
| `Histories.RunIsOnward` | apps/api/src/domain/lending/loan.ts:158-249 | over every run the clock does not go back, loans keep their terms, and a burned receipt stays burned |
| `Histories.StaleQuoteIsNeverHonoured` | apps/api/src/modules/lending/application/repay-loan.use-case.ts:69-76 | once stale, a quote is refused in every later state whatever happens between |
| `Histories.RedeemedCollateralTrapsTheHighBid` | apps/api/src/modules/lending/application/close-liquidation.use-case.ts:118-121 | once the receipt of a sale past its close has been burned by something else, the high bid's money stays held and both its exits are refused for ever |
| `Scenarios.ATrappedBidIsReachable` | apps/api/src/modules/lending/application/close-liquidation.use-case.ts:118-121 | a concrete run reaches such a sale |
| `Exits.HighBidHasAnExitExactlyWhen` | apps/api/src/modules/lending/application/close-liquidation.use-case.ts:55-124 | the money of a running sale's high bid can ever move again exactly when the receipt is not burned, so that the sale can close, or bidding is not over, so that the bid can be beaten and reclaimed |
| `Scenarios.AZeroLineAbortsTheAcceptance` | apps/api/src/modules/lending/application/accept-offer.use-case.ts:112-120 | on one reachable book the acceptance succeeds, and with a fee of nothing or of the whole principal it is refused and changes nothing |
| `Scenarios.AFutureQuoteBecomesFresh` | apps/api/src/modules/lending/application/repay-loan.use-case.ts:69-76 | a reachable loan whose quote dated a year ahead is refused as stale now and honoured in full when the year is over |
| `UseCases.Platform.Deposit` | apps/api/src/modules/ledger/application/deposit.use-case.ts:44-53 | the statements on the tables are the system's step of that name, answer and whole new state |
| `UseCases.Platform.Withdraw` | apps/api/src/modules/ledger/application/withdraw.use-case.ts:29-48 | the statements on the tables are the system's step of that name, answer and whole new state |
| `UseCases.Platform.CreateListing` | apps/api/src/modules/marketplace/application/create-listing.use-case.ts:66-124 | the statements on the tables are the system's step of that name, answer and whole new state |
| `UseCases.Platform.PublishListing` | apps/api/src/modules/marketplace/application/publish-listing.use-case.ts:52-79 | the statements on the tables are the system's step of that name, answer and whole new state |
| `UseCases.Platform.CancelListing` | apps/api/src/modules/marketplace/application/cancel-listing.use-case.ts:27-43 | the statements on the tables are the system's step of that name, answer and whole new state |
| `UseCases.Platform.PlaceOffer` | apps/api/src/modules/marketplace/application/place-offer.use-case.ts:63-130 | probe, hold, second validation and save, with rollback, are the system's place-offer step |
| `UseCases.Platform.WithdrawOffer` | apps/api/src/modules/marketplace/application/withdraw-offer.use-case.ts:42-72 | the statements on the tables are the system's step of that name, answer and whole new state |
| `UseCases.Platform.ReclaimHold` | apps/api/src/modules/marketplace/application/reclaim-hold.use-case.ts:41-62 | the statements on the tables are the system's step of that name, answer and whole new state |
| `UseCases.Platform.AcceptOffer` | apps/api/src/modules/lending/application/accept-offer.use-case.ts:70-157 | release, encumbrance, loan and listing writes, with rollback of all of them on a thrown error, are the system's acceptance step |
| `UseCases.Platform.RepayLoan` | apps/api/src/modules/lending/application/repay-loan.use-case.ts:54-97 | transfer, loan write and encumbrance release, with rollback, are the system's repayment step |
| `UseCases.Platform.MarkDefault` | apps/api/src/modules/lending/application/mark-default.use-case.ts:39-56 | the statements on the tables are the system's step of that name, answer and whole new state |
| `UseCases.Platform.ClaimReceipt` | apps/api/src/modules/lending/application/claim-receipt.use-case.ts:40-59 | the statements on the tables are the system's step of that name, answer and whole new state |
| `UseCases.Platform.ScheduleLiquidation` | apps/api/src/modules/lending/application/schedule-liquidation.use-case.ts:47-76 | the statements on the tables are the system's step of that name, answer and whole new state |
| `UseCases.Platform.OpenLiquidation` | apps/api/src/modules/lending/application/open-liquidation.use-case.ts:37-55 | the statements on the tables are the system's step of that name, answer and whole new state |
| `UseCases.Platform.PlaceBid` | apps/api/src/modules/lending/application/place-bid.use-case.ts:48-101 | probe, hold and save, with rollback, are the system's place-bid step |
| `UseCases.Platform.ReclaimBid` | apps/api/src/modules/lending/application/reclaim-bid.use-case.ts:43-70 | the statements on the tables are the system's step of that name, answer and whole new state |
| `UseCases.Platform.CloseLiquidation` | apps/api/src/modules/lending/application/close-liquidation.use-case.ts:55-124 | the statements, with rollback on a thrown error and commit on the returned failure, are the system's close step |
| `UseCases.Platform.TransitionReceipt` | apps/api/src/infrastructure/custody/database-custody.adapter.ts:51-122 | load, apply and save write exactly what the receipt's transition table allows, or throw its refusal and write nothing |
| `UseCases.Platform.RollBack` | apps/api/src/infrastructure/persistence/prisma-unit-of-work.ts:20-28 | a rollback restores every table as the unit of work found it |
| `Outbox.NoEventIsLost` | apps/api/src/infrastructure/events/outbox-drain.worker.ts:76-149 | for any number of drains, crashes and stalls, rows and dead letters partition the ids ever enqueued, a published row was accepted by the handler, and a dead letter was claimed at least five times |
| `Outbox.NoEventAtTwoDrains` | apps/api/src/infrastructure/events/outbox-drain.worker.ts:70-98 | when every claim is settled within the visibility window no event is in flight at two drains |
| `Outbox.PublishedIsFinal` | apps/api/src/infrastructure/events/outbox-drain.worker.ts:100-114 | in such runs a published row is never touched again |
| `Outbox.PublishedCanBeDeadLetteredExactlyWhen` | apps/api/src/infrastructure/events/outbox-drain.worker.ts:100-147 | from any reachable state a published event can still be dead lettered exactly when some drain holds it from its last allowed attempt and every event before it in that drain's batch still has its row |
| `Outbox.DeadDrainsStrandNothing` | apps/api/src/infrastructure/events/outbox-drain.worker.ts:29-32 | an unpublished event can be claimed again exactly once its last claim is older than the window |
| `Outbox.StallingCanDeadLetterAPublishedEvent` | apps/api/src/infrastructure/events/outbox-drain.worker.ts:118-147 | a concrete run in which a stalled drain dead letters an event another has published |
| `OutboxDrainWorker.Worker.SelectClaimable` | apps/api/src/infrastructure/events/outbox-drain.worker.ts:79-90 | the batch is the claimable rows in id order, none passed over for a later one, at most the batch size |
| `OutboxDrainWorker.Worker.RecordFailure` | apps/api/src/infrastructure/events/outbox-drain.worker.ts:118-149 | releases the claim below five attempts, otherwise moves the row to the dead letters; throws exactly when the row is missing or already dead lettered, writing nothing |
| `OutboxDrainWorker.Worker.DrainOnce` | apps/api/src/infrastructure/events/outbox-drain.worker.ts:76-114 | an undisturbed drain never throws, settles every claimed row as the handler answered, touches no other row, counts the deliveries, and is a run of the outbox machine |
| `Idempotency.AtMostOneRow` | apps/api/src/infrastructure/persistence/prisma-idempotency-store.ts:25-84 | under every interleaving of claims, completions and releases a key of an account has at most one row |
| `Idempotency.EveryClaimInsertedItsOwnRow` | apps/api/src/infrastructure/persistence/prisma-idempotency-store.ts:32-42 | claimants told claimed and inserted rows correspond one to one |
| `Idempotency.ClaimsAreSeparatedByARemoval` | apps/api/src/infrastructure/persistence/prisma-idempotency-store.ts:44-84 | between two claims of a key the earlier claim's row was released, or deleted after it had expired |
| `Idempotency.UndisturbedClaimEnds` | apps/api/src/infrastructure/persistence/prisma-idempotency-store.ts:25-66 | alone, a claim is answered within four statements with what the table owes it: claimed exactly when the key is free or its row expired, otherwise read off the row; it starts over at most once, exactly on an expired row |
| `Idempotency.Store.Claim` | apps/api/src/infrastructure/persistence/prisma-idempotency-store.ts:25-66 | the recursive method claims a free or expired key, answers from the row otherwise, leaves other keys alone, and recurses at most once |
| `Idempotency.Store.CompleteClaim` | apps/api/src/infrastructure/persistence/prisma-idempotency-store.ts:68-80 | stores the response in the key's row, or fails when there is none |
| `Idempotency.Store.ReleaseClaim` | apps/api/src/infrastructure/persistence/prisma-idempotency-store.ts:82-84 | removes the key's row and no other |
| `Executions.TouchedByAnotherExactlyWhen` | apps/api/src/infrastructure/persistence/prisma-idempotency-store.ts:68-84 | at every point of every run a row can still be completed or released by a claimant that did not insert it exactly when somebody executes a request under its key whose own row is another one |
| `Executions.RowsOutliveExecutionsExactlyWhen` | apps/api/src/infrastructure/persistence/prisma-idempotency-store.ts:52-55 | over every run, everybody who executes a request has the row they inserted at every point exactly when no claim deletes, as expired, a row whose claimant still executes |
| `Executions.WithoutOverrunsKeysAreExclusive` | apps/api/src/modules/shared/http/idempotency.interceptor.ts:16-19 | in such runs at most one request executes under a key at a time, and every row is completed and released only by the claimant that inserted it |
| `Executions.ExecutionEndsExactlyAs` | apps/api/src/infrastructure/persistence/prisma-idempotency-store.ts:68-84 | a completion writes its answer into its key's row and no other, or, with no row there, leaves only the release; a release leaves its key without a row and the others alone |
| `Executions.OverrunIsReached` | apps/api/src/infrastructure/persistence/prisma-idempotency-store.ts:52-55 | a concrete run in which a claimant still executes while another has deleted its row and won the key |
| `Executions.AnOverrunAnswersForAnother` | apps/api/src/modules/shared/http/idempotency.interceptor.ts:71-91 | from there its completion is stored in the other's row, so a repeat of the second request is answered with the first one's response while the second is still executed |
| `Executions.AnOverrunLetsARequestRunTwice` | apps/api/src/modules/shared/http/idempotency.interceptor.ts:71-91 | from there its failure releases the other's unexpired row, so the second request is executed twice at once |
| `VersionedReceipts.NoUpdateIsLost` | apps/api/src/infrastructure/persistence/repositories/prisma-custody-receipt.repository.ts:73-101 | with loads, saves and commits interleaved arbitrarily the committed history is a path of the transition table and the version counts the committed updates |
| `VersionedReceipts.OneCommitPerVersion` | apps/api/src/infrastructure/persistence/repositories/prisma-custody-receipt.repository.ts:73-101 | of the transactions that loaded one version at most one commits, and one is refused as stale only because another committed |
| `VersionedReceipts.RaceHasOneWinner` | apps/api/src/infrastructure/custody/database-custody.adapter.ts:51-122 | of a redemption and an encumbrance racing on one version exactly one commits |
| `VersionedReceipts.LoneTransactionIsItsTransition` | apps/api/src/infrastructure/custody/database-custody.adapter.ts:51-122 | with the row unlocked, an undisturbed transaction writes the receipt's transition at the next version or is refused for the receipt's own reason, never as stale, and gives up its lock |
| `VersionedReceipts.AbortLeavesNothing` | apps/api/src/infrastructure/persistence/prisma-unit-of-work.ts:20-28 | a transaction aborted at any statement leaves the table alone and no lock behind |
| `VersionedReceipts.CustodyAdapter.Save` | apps/api/src/infrastructure/persistence/repositories/prisma-custody-receipt.repository.ts:73-101 | creates at version zero, updates only at the loaded version, and fails otherwise |
| `VersionedReceipts.CustodyAdapter.Transition` | apps/api/src/infrastructure/custody/database-custody.adapter.ts:51-122 | within one transaction fails exactly for an unknown receipt or a disallowed transition; otherwise writes the transition at the next version |
| `RankOffers.RankIsAStableSort` | apps/api/src/domain/marketplace/rank-offers.ts:18-40 | the ranking is a stable permutation of the pending offers: of any two the one in front costs less, or the same and was made no later, and those that tie on both stand in book order |
| `RankOffers.CheaperThenEarlier` | apps/api/src/domain/marketplace/rank-offers.ts:23-39 | the same for any two places of the ranking, each cost being the exact interest over the requested duration rounded to whole minor units |
| `RankOffers.RankedCostIsTheInterestOwed` | apps/api/src/domain/marketplace/rank-offers.ts:23-29 | for an offer of the requested duration the ranked cost is the interest its loan owes at maturity and ever after |
| `RankOffers.LowerRateRanksFirst` | apps/api/src/domain/marketplace/rank-offers.ts:13-17 | a lower rate on the same principal never ranks behind a higher one made no earlier |
| `StableSorting.SortIsSorted` | apps/api/src/domain/marketplace/rank-offers.ts:31-39 | the sort is sorted for any total preorder |
| `StableSorting.SortIsStable` | apps/api/src/domain/marketplace/rank-offers.ts:31-39 | the sort keeps the order of ties |
| `Pagination.PagesAreTheWholeList` | apps/api/src/infrastructure/persistence/queries/prisma-marketplace-queries.ts:47-97 | for each sort and any positive limit, following the cursor from nothing ends, and the pages together are the whole sorted filtered list |
| `Pagination.MatchingRows` | apps/api/src/infrastructure/persistence/queries/prisma-marketplace-queries.ts:65-86 | that list holds each matching listing exactly once |
| `Pagination.MatchingRowsAreInOrder` | apps/api/src/infrastructure/persistence/queries/prisma-marketplace-queries.ts:82-86 | newest id first, or lowest rate, or soonest to close, ids breaking ties |
| `Pagination.MatchesExactlyWhen` | apps/api/src/infrastructure/persistence/queries/prisma-marketplace-queries.ts:65-73 | which rows the filter keeps, the floored loan-to-value comparison included |
| `Pagination.BeyondIsStrictlyAfter` | apps/api/src/infrastructure/persistence/queries/prisma-marketplace-queries.ts:74-81 | the keyset condition of a row's cursor selects exactly the rows strictly after it |
| `Pagination.CursorRoundTrip` | apps/api/src/infrastructure/persistence/queries/prisma-marketplace-queries.ts:148-173 | decoding recovers the id and the value the sort resumes from |
| `Pagination.MalformedCursors` | apps/api/src/infrastructure/persistence/queries/prisma-marketplace-queries.ts:144-163 | a cursor without an id reads as none; one without the value its sort needs selects nothing |
| `IntakeRecords.CanonicalFormWithDigests` | apps/api/src/domain/custody/intake-record-hash.ts:19-39 | with content hashes of one length two intakes have the same canonical form exactly when their scalars agree and their serial numbers and evidence agree as multisets |
| `IntakeRecords.CanonicalFormIsContent` | apps/api/src/domain/custody/intake-record-hash.ts:19-39 | the same for any evidence whose sort keys tell different pieces apart |
| `IntakeRecords.OrderIsForgottenExactlyWhenKeysDistinguish` | apps/api/src/domain/custody/intake-record-hash.ts:28-36 | the canonical evidence is independent of attachment order exactly when the sort keys tell different pieces apart |
| `IntakeRecords.KeysCanCollide` | apps/api/src/domain/custody/intake-record-hash.ts:29-34 | two different pieces of evidence that share a sort key, when hashes may differ in length |
| `IntakeRecords.CanonicalListsAreSorted` | apps/api/src/domain/custody/intake-record-hash.ts:26-36 | the hashed serial numbers and evidence are those given, each list in ascending order of its code units |
| `CodeUnits.OrderedExactlyWhen` | apps/api/src/domain/custody/intake-record-hash.ts:30-34 | strings are ordered by the first code unit that differs, a prefix before what it begins |
| `IntakeRecords.EditWrites` | apps/api/src/domain/custody/intake-record.ts:105-163 | what each edit writes into a draft, and that nothing else changes |
| `IntakeRecords.DraftHoldsEveryEdit` | apps/api/src/domain/custody/intake-record.ts:81-130 | over every history a draft holds all evidence attached, in order, the last description with its serial numbers, and the last seal number |
| `IntakeRecords.SealedRecordHoldsEveryEdit` | apps/api/src/domain/custody/intake-record.ts:81-163 | over every history a sealed record holds for ever exactly what was attached, described and recorded before the seal, under the digest of the canonical form of just that |
| `IntakeRecords.SealedForever` | apps/api/src/domain/custody/intake-record.ts:106-163 | over every history a sealed record never changes again and its hash is the digest of its canonical form |
| `IntakeRecords.SealedHashCommitsToContent` | apps/api/src/domain/custody/intake-record.ts:152-162 | with an injective digest equal sealed hashes mean equal content |
| `IntakeRecords.SealExactlyWhen` | apps/api/src/domain/custody/intake-record.ts:132-163 | sealing succeeds exactly on a draft with evidence, a seal number and appraisals that are all below the threshold or by two different appraisers, and which refusal it answers otherwise |
| `VaultCustody.VaultsStayInsured` | apps/api/src/modules/custody/application/issue-receipt.use-case.ts:71-100 | over every run no vault's exposure exceeds its insured limit and a sealed hash has at most one receipt |
| `VaultCustody.ExposureCountsLive` | apps/api/src/infrastructure/persistence/repositories/prisma-custody-receipt.repository.ts:48-61 | exposure is the appraised value of the vault's receipts that are in the vault or encumbered: one receipt more adds exactly its own part |
| `VaultCustody.EventChangesExposure` | apps/api/src/infrastructure/persistence/repositories/prisma-custody-receipt.repository.ts:48-61 | a burn takes exactly the receipt's appraised value off its vault's exposure, and no other event changes any vault's |
| `VaultCustody.RedemptionFreesRoom` | apps/api/src/modules/custody/application/issue-receipt.use-case.ts:81-85 | at any point of any run, right after a redemption an intake gets its receipt exactly when it has one or fits the limit with the redeemed value off; one of no more than the redeemed value always does |
| `VaultCustody.IntakeStepsExactlyWhen` | apps/api/src/modules/custody/application/record-appraisal.use-case.ts:42-63 | vaults, intakes, appraisals and seals: when each is taken and what it writes, appraisals in order |
| `VaultCustody.RedemptionExactlyWhen` | apps/api/src/modules/custody/application/request-redemption.use-case.ts:54-75 | a receipt is redeemed exactly by its holder while in the vault; then it is burned and the request recorded, and nothing else changes |
| `VaultCustody.LendingExactlyWhen` | apps/api/src/infrastructure/custody/database-custody.adapter.ts:51-122 | lending moves a receipt exactly as its transition table allows and never redeems it |
| `VaultCustody.CounterExactlyWhen` | apps/api/src/domain/custody/redemption-request.ts:103-142 | verification and handover succeed exactly once and in that order, record who did them, and answer which refusal otherwise |
| `VaultCustody.IssueExactlyWhen` | apps/api/src/modules/custody/application/issue-receipt.use-case.ts:51-100 | a sealed appraised intake gets a receipt exactly when it has one or its latest appraisal fits the limit; a new one raises the exposure by that value |
| `VaultCustody.IssuingAgainReplays` | apps/api/src/modules/custody/application/issue-receipt.use-case.ts:76-80 | issuing again at any later point returns the first receipt and changes nothing |
| `VaultCustody.ReleasedMeansRequested` | apps/api/src/modules/custody/application/request-redemption.use-case.ts:54-75 | a receipt is RELEASED exactly when one redemption request exists for it |
| `VaultCustody.HandedOverOnceAndVerifiedFirst` | apps/api/src/domain/custody/redemption-request.ts:103-142 | an item is handed over at most once and only after verification |
| `VaultCustody.CustodyDesk.ExposureOf` | apps/api/src/infrastructure/persistence/repositories/prisma-custody-receipt.repository.ts:48-61 | the loop sums to the exposure, which counts exactly the live receipts of the vault (`VaultCustody.ExposureCountsLive`) |
| `VaultCustody.CustodyDesk.IssueReceipt` | apps/api/src/modules/custody/application/issue-receipt.use-case.ts:51-100 | the statements are the issue step |
| `VaultCustody.CustodyDesk.RequestRedemption` | apps/api/src/modules/custody/application/request-redemption.use-case.ts:54-75 | burn and request together are the request step, the burn taken back when the request cannot be saved |
| `VaultCustody.CustodyDesk.VerifyRedemption` | apps/api/src/modules/custody/application/verify-redemption.use-case.ts:36-48 | the statements are the verify step |
| `VaultCustody.CustodyDesk.ConfirmRelease` | apps/api/src/modules/custody/application/confirm-release.use-case.ts:41-54 | the statements are the handover step |
| `ConcurrentVaults.EveryInterleavingIsSerial` | apps/api/src/modules/custody/application/issue-receipt.use-case.ts:71-100 | with every read, the vault lock, the insert and the commit as separate statements of any number of issuances, and burns and all other commands committing in between, the committed state is what the committed commands make one at a time; so no vault exceeds its insured limit and no two receipts have one hash |
| `ConcurrentVaults.EveryAnswerIsAtomic` | apps/api/src/modules/custody/application/issue-receipt.use-case.ts:52-100 | every answer, refusals and replays included, and every effect is that of the undivided issue at some point between the issuance's begin and its answer |
| `ConcurrentVaults.RepeatsGetOneReceipt` | apps/api/src/modules/custody/application/issue-receipt.use-case.ts:71-80 | racing repeats all get the one receipt of their intake |
| `ConcurrentVaults.CommitIsAtomic` | apps/api/src/modules/custody/application/issue-receipt.use-case.ts:76-100 | an issuance whose row the indexes accept commits exactly what the undivided issue does to the state committed by then, so its earlier reads have not gone stale |
| `ConcurrentVaults.LoneIssuanceIsTheIssue` | apps/api/src/modules/custody/application/issue-receipt.use-case.ts:51-130 | with its vault unlocked, an undisturbed issuance ends within eight statements with the undivided issue's answer and state, and gives up its lock |
| `ConcurrentVaults.AbortLeavesNothing` | apps/api/src/infrastructure/persistence/prisma-unit-of-work.ts:20-28 | an issuance that dies at any statement leaves the tables alone and no lock behind |
| `ConcurrentVaults.IndexRefusesOnlyAnotherVaultsHash` | apps/api/src/modules/custody/application/issue-receipt.use-case.ts:71-76 | under a new receipt id the unique index refuses an insertion exactly when a receipt of another vault has the hash; the lock leaves it nothing to catch within one vault |

## Left out

- Interleavings of whole use cases: the transition system takes each use case as one step; interleaving is modelled
  where the source relies on it, for balances and holds, for issuance under a vault's limit, for receipt versions, for
  the outbox and for idempotency.
- Versions of listings, loans and sales: they follow the same check as receipts, which `VersionedReceipts` covers.
- Deadlock and liveness under contention, such as the number of retries of a disturbed idempotency claim or the wait for
  a vault's lock.
- ConcurrentVaults.EveryInterleavingIsSerial: the commands other than the issue commit as one step each; the version
  checks that make a burn or an encumbrance one step are in `VersionedReceipts`.
- Outbox.NoEventAtTwoDrains: the claiming transaction, with its skipped locked rows, is one step that takes any ascending
  choice of claimable rows; which rows it skips is not modelled.
- OutboxDrainWorker.Worker.DrainOnce: the handler is a function from events to verdicts, and nobody interferes between its
  statements; interference is the subject of the machine it is proved to be a run of.
- Pagination.PagesAreTheWholeList: the listings and the filter's clock stay fixed while the pages are followed.
- Pagination.CursorRoundTrip: reading and writing dates are parameters with round-trip laws (`Pagination.Faithful`, met by
  at least one choice as `Pagination.SomeFormatsAreFaithful` shows), instants are whole milliseconds, and ids are
  compared code unit by code unit.
- IntakeRecords.CanonicalFormWithDigests: the form is the structured value before serialisation; JSON and SHA-256 are not
  modelled, the digest is a parameter.
- VaultCustody.IssueExactlyWhen: sealing is a step that supplies the hash; evidence, seal number and appraiser rules are in
  `IntakeRecords.SealExactlyWhen`.
- RankOffers.RankIsAStableSort: amounts are compared within one currency.
- Strings are sequences of characters, not of UTF-16 code units.
- Account lookup by e-mail in a deposit, accounts, sessions and staff identities.
- Operations without a calling use case: expiring listings and offers, cancelling a sale; transferring a receipt exists
  only as a custody event.
- Notes: the lender note's holder is a field of the loan, since nothing transfers a note.
- Audit entries, event payloads and logging, beyond the outbox rows themselves.
- HTTP controllers, guards, schemas, the web applications, file storage and photograph checks.
- Reconciliation, loan-book reports, parameter storage and pause administration; the pause is a flag a step sets.
