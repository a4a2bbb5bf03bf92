/** Names the whole model shares: the outcome of an operation and the errors it can name. */
module Shared {

  datatype Option<+T> = None | Some(value: T)

  /** A returned value, or the error the source throws or returns. */
  datatype Result<+T> = Ok(value: T) | Err(error: Error)

  datatype Error =
    | SystemPaused
    | NotFound
    | DuplicateId
    | NotResourceOwner
    | InsufficientFunds
    | UnbalancedTransaction
    | NonPositiveEntryAmount
    | FundsHoldMissing
    | FundsHoldNotHeld
    | DistributionMismatch
    | HoldNotReclaimable
    | ListingNotActive
    | ListingNotDraft
    | ListingExpired
    | ListingAlreadyMatched
    | ReceiptAlreadyListed
    | RateAboveMaximum
    | LoanToValueExceeded
    | LoanToValueCapMissing
    | OfferNotFound
    | OfferNotPending
    | OfferHasExpired
    | OfferWithdrawalTooEarly
    | ReceiptNotInVault
    | ReceiptNotEncumbered
    | ReceiptIsEncumbered
    | ReceiptAlreadyBurned
    | LoanTermsInvalid
    | LoanNotActive
    | LoanNotDefaulted
    | GracePeriodActive
    | PayoffQuoteStale
    | RepaymentAmountInsufficient
    | HoldingPeriodActive
    | LiquidationAlreadyScheduled
    | LiquidationNotScheduled
    | LiquidationNotOpen
    | BidBelowReserve
    | StaleVersion
    | IntakeAlreadySealed
    | IntakeIncomplete
    | IntakeNotSealed
    | DualAppraisalRequired
    | VaultInsuredLimitExceeded
    | RedemptionNotVerified
    | RedemptionAlreadyVerified
    | RedemptionAlreadyReleased

  /** Instants are milliseconds since the epoch. */
  type Instant = int

  type UserId = nat
}
