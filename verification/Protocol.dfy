/** The lending protocol as one transition system. Each command is one use case, run as one transaction:
    a thrown error leaves the state as it was. */
module Protocol {
  import opened Shared
  import opened Distributions
  import opened CustodyReceipts
  import opened Loans
  import opened Marketplace
  import opened Liquidations
  import Waterfall
  import L = Ledger

  type ListingId = nat
  type SaleId = nat

  /** Where a row of the offer or bid table belongs: its parent's id and its place in the parent's book. */
  datatype Slot = Slot(parent: nat, position: nat)

  /** What a hold was taken for. A history variable: no operation reads it. */
  datatype Origin = OfferOrigin(slot: Slot) | BidOrigin(slot: Slot)

  datatype State = State(
    now: Instant,
    paused: bool,
    ledger: L.Ledger,
    listings: map<ListingId, Listing>,
    offerSlots: map<OfferId, Slot>,
    loans: map<LoanId, Loan>,
    receipts: map<ReceiptId, Receipt>,
    sales: map<SaleId, Sale>,
    bidSlots: map<BidId, Slot>,
    origins: map<HoldId, Origin>)

  /** The state a use case commits, and what it answers: an id, a settlement reference, or an error. */
  datatype Outcome = Outcome(state: State, result: Result<nat>)

  const Initial := State(0, false, L.Empty, map[], map[], map[], map[], map[], map[], map[])

  datatype Command =
    | Tick(to: Instant)
    | SetPaused(pause: bool)
    | Deposit(user: UserId, amount: int)
    | Withdraw(user: UserId, amount: int)
    | IssueReceipt(receiptId: ReceiptId, vault: VaultId, holder: UserId, intakeHash: string, appraisedValue: int,
                   category: Category)
    | RequestRedemption(receiptId: ReceiptId, requestedBy: UserId)
    | CreateListing(listingId: ListingId, requestedBy: UserId, receiptId: ReceiptId, principal: int, rate: nat,
                    durationMs: int, lifetimeMs: int, parameters: Parameters)
    | PublishListing(listingId: ListingId, requestedBy: UserId)
    | CancelListing(listingId: ListingId, requestedBy: UserId)
    | PlaceOffer(listingId: ListingId, requestedBy: UserId, principal: int, rate: nat, durationMs: int,
                 expiresAt: Instant,
                 offerId: OfferId, holdId: HoldId, parameters: Parameters)
    | WithdrawOffer(listingId: ListingId, offerId: OfferId, requestedBy: UserId, parameters: Parameters)
    | ReclaimHold(offerId: OfferId, requestedBy: UserId)
    | AcceptOffer(listingId: ListingId, offerId: OfferId, requestedBy: UserId, loanId: LoanId, parameters: Parameters)
    | RepayLoan(loanId: LoanId, requestedBy: UserId, payment: int, quotedAt: Instant)
    | MarkDefault(loanId: LoanId, requestedBy: UserId)
    | ClaimReceipt(loanId: LoanId, requestedBy: UserId)
    | ScheduleLiquidation(saleId: SaleId, loanId: LoanId, reservePrice: int, parameters: Parameters)
    | OpenLiquidation(saleId: SaleId, windowMs: int)
    | PlaceBid(saleId: SaleId, requestedBy: UserId, amount: int, bidId: BidId, holdId: HoldId)
    | ReclaimBid(saleId: SaleId, bidId: BidId, requestedBy: UserId)
    | CloseLiquidation(saleId: SaleId)

  function Refuse(s: State, error: Error): Outcome {
    Outcome(s, Err(error))
  }

  // ----- clock, pause and wallet -----

  function TickStep(s: State, c: Command): Outcome
    requires c.Tick?
  {
    Outcome(if c.to >= s.now then s.(now := c.to) else s, Ok(0))
  }

  ghost function DepositStep(s: State, c: Command): Outcome
    requires c.Deposit?
  {
    match L.Transfer(s.ledger, PlatformFloat, User(c.user), c.amount, 0)
    case Err(error) => Refuse(s, error)
    case Ok(posted) => Outcome(s.(ledger := posted.ledger), Ok(posted.reference))
  }

  ghost function WithdrawStep(s: State, c: Command): Outcome
    requires c.Withdraw?
  {
    match L.Transfer(s.ledger, User(c.user), PlatformFloat, c.amount, 0)
    case Err(error) => Refuse(s, error)
    case Ok(posted) => Outcome(s.(ledger := posted.ledger), Ok(posted.reference))
  }

  // ----- custody -----

  function IssueReceiptStep(s: State, c: Command): Outcome
    requires c.IssueReceipt?
  {
    if c.receiptId in s.receipts then Refuse(s, DuplicateId)
    else
      var receipt := Issue(c.vault, c.holder, c.intakeHash, c.appraisedValue, c.category);
      Outcome(s.(receipts := s.receipts[c.receiptId := receipt]), Ok(c.receiptId))
  }

  function RequestRedemptionStep(s: State, c: Command): Outcome
    requires c.RequestRedemption?
  {
    if c.receiptId !in s.receipts then Refuse(s, NotFound)
    else if s.receipts[c.receiptId].holder != c.requestedBy then Refuse(s, NotResourceOwner)
    else
      match Apply(s.receipts[c.receiptId], BurnForRedemption)
      case Err(error) => Refuse(s, error)
      case Ok(burned) => Outcome(s.(receipts := s.receipts[c.receiptId := burned]), Ok(c.receiptId))
  }

  // ----- marketplace -----

  predicate HasLiveListing(s: State, receiptId: ReceiptId) {
    exists l :: l in s.listings && s.listings[l].receipt == receiptId && LiveListing(s.listings[l])
  }

  function CreateListingStep(s: State, c: Command): Outcome
    requires c.CreateListing?
  {
    if s.paused then Refuse(s, SystemPaused)
    else if c.receiptId !in s.receipts then Refuse(s, NotFound)
    else
      var receipt := s.receipts[c.receiptId];
      if receipt.holder != c.requestedBy then Refuse(s, NotResourceOwner)
      else if receipt.status != InVault then Refuse(s, ReceiptNotInVault)
      else if HasLiveListing(s, c.receiptId) then Refuse(s, ReceiptAlreadyListed)
      else if c.rate > c.parameters.maxRate then Refuse(s, RateAboveMaximum)
      else
        var within := WithinLoanToValue(c.principal, receipt.appraisedValue, receipt.category, c.parameters);
        if within.Err? then Refuse(s, within.error)
        else
          var drafted := Draft(Listing(c.requestedBy, c.receiptId, c.principal, c.rate, c.durationMs,
                                       s.now + c.lifetimeMs, ListingDraft, []), s.now);
          if drafted.Err? then Refuse(s, drafted.error)
          else if c.listingId in s.listings then Refuse(s, DuplicateId)
          else Outcome(s.(listings := s.listings[c.listingId := drafted.value]), Ok(c.listingId))
  }

  function PublishListingStep(s: State, c: Command): Outcome
    requires c.PublishListing?
  {
    if s.paused then Refuse(s, SystemPaused)
    else if c.listingId !in s.listings then Refuse(s, NotFound)
    else
      var listing := s.listings[c.listingId];
      if listing.borrower != c.requestedBy then Refuse(s, NotResourceOwner)
      else if listing.receipt !in s.receipts || s.receipts[listing.receipt].status != InVault
           then Refuse(s, ReceiptNotInVault)
      else if s.receipts[listing.receipt].holder != c.requestedBy then Refuse(s, NotResourceOwner)
      else
        match Publish(listing, s.now)
        case Err(error) => Refuse(s, error)
        case Ok(published) => Outcome(s.(listings := s.listings[c.listingId := published]), Ok(c.listingId))
  }

  function CancelListingStep(s: State, c: Command): Outcome
    requires c.CancelListing?
  {
    if c.listingId !in s.listings then Refuse(s, NotFound)
    else
      match Cancel(s.listings[c.listingId], c.requestedBy)
      case Err(error) => Refuse(s, error)
      case Ok(cancelled) => Outcome(s.(listings := s.listings[c.listingId := cancelled.listing]), Ok(c.listingId))
  }

  /** The offer a place-offer command describes, carrying a hold id. */
  function OfferOf(s: State, c: Command, holdId: HoldId): Offer
    requires c.PlaceOffer?
  {
    Offer(c.offerId, c.requestedBy, c.principal, c.rate, c.durationMs, holdId, c.expiresAt, s.now, OfferPending)
  }

  /** The validation runs first on a probe with a placeholder hold, then again on the offer that carries the hold. */
  ghost function PlaceOfferStep(s: State, c: Command): Outcome
    requires c.PlaceOffer?
  {
    if s.paused then Refuse(s, SystemPaused)
    else if c.listingId !in s.listings || s.listings[c.listingId].receipt !in s.receipts then Refuse(s, NotFound)
    else
      var listing := s.listings[c.listingId];
      var receipt := s.receipts[listing.receipt];
      var probe := AddOffer(listing, OfferOf(s, c, 0), receipt.appraisedValue, receipt.category, c.parameters, s.now);
      if probe.Err? then Refuse(s, probe.error)
      else
        match L.Hold(s.ledger, c.requestedBy, c.principal, c.listingId, c.holdId)
        case Err(error) => Refuse(s, error)
        case Ok(posted) =>
          var added := AddOffer(listing, OfferOf(s, c, c.holdId), receipt.appraisedValue, receipt.category,
                                c.parameters, s.now);
          if added.Err? then Refuse(s, added.error)
          else if c.offerId in s.offerSlots then Refuse(s, DuplicateId)
          else
            var slot := Slot(c.listingId, |listing.offers|);
            Outcome(s.(ledger := posted.ledger,
                       listings := s.listings[c.listingId := added.value],
                       offerSlots := s.offerSlots[c.offerId := slot],
                       origins := s.origins[c.holdId := OfferOrigin(slot)]),
                    Ok(c.offerId))
  }

  ghost function WithdrawOfferStep(s: State, c: Command): Outcome
    requires c.WithdrawOffer?
  {
    if c.listingId !in s.listings then Refuse(s, OfferNotFound)
    else
      match Marketplace.WithdrawOffer(s.listings[c.listingId], c.offerId, c.requestedBy, c.parameters, s.now)
      case Err(error) => Refuse(s, error)
      case Ok(withdrawn) =>
        match L.Refund(s.ledger, withdrawn.offer.hold)
        case Err(error) => Refuse(s, error)
        case Ok(posted) =>
          Outcome(s.(ledger := posted.ledger, listings := s.listings[c.listingId := withdrawn.listing]),
                  Ok(posted.reference))
  }

  /** Superseded, expired, or pending past its expiry: money the lender can pull back. */
  predicate HoldReclaimable(offer: Offer, now: Instant) {
    || offer.status == OfferSuperseded
    || offer.status == OfferExpired
    || (offer.status == OfferPending && now > offer.expiresAt)
  }

  /** No pause check and no status write. */
  ghost function ReclaimHoldStep(s: State, c: Command): Outcome
    requires c.ReclaimHold?
  {
    if c.offerId !in s.offerSlots || s.offerSlots[c.offerId].parent !in s.listings then Refuse(s, OfferNotFound)
    else
      var offers := s.listings[s.offerSlots[c.offerId].parent].offers;
      var found := FindOffer(offers, c.offerId);
      if found.None? then Refuse(s, OfferNotFound)
      else
        var offer := offers[found.value];
        if offer.lender != c.requestedBy then Refuse(s, NotResourceOwner)
        else if !HoldReclaimable(offer, s.now) then Refuse(s, HoldNotReclaimable)
        else
          match L.Refund(s.ledger, offer.hold)
          case Err(error) => Refuse(s, error)
          case Ok(posted) => Outcome(s.(ledger := posted.ledger), Ok(posted.reference))
  }

  // ----- lending -----

  function OriginationLines(listing: Listing, accepted: AcceptedOffer): seq<Distribution> {
    [Distribution(User(listing.borrower), accepted.disbursement),
     Distribution(PlatformFeeRevenue, accepted.originationFee)]
  }

  ghost function AcceptOfferStep(s: State, c: Command): Outcome
    requires c.AcceptOffer?
  {
    if s.paused then Refuse(s, SystemPaused)
    else if c.listingId !in s.listings || s.listings[c.listingId].receipt !in s.receipts then Refuse(s, NotFound)
    else
      var listing := s.listings[c.listingId];
      var receipt := s.receipts[listing.receipt];
      match Marketplace.AcceptOffer(listing, c.offerId, c.requestedBy, c.parameters, s.now)
      case Err(error) => Refuse(s, error)
      case Ok(accepted) =>
        var winner := accepted.winningOffer;
        var within := WithinLoanToValue(winner.principal, receipt.appraisedValue, receipt.category, c.parameters);
        if within.Err? then Refuse(s, within.error)
        else
          match L.Release(s.ledger, winner.hold, OriginationLines(listing, accepted), L.OriginateLoanKind)
          case Err(error) => Refuse(s, error)
          case Ok(posted) =>
            match Apply(receipt, Encumber(c.loanId))
            case Err(error) => Refuse(s, error)
            case Ok(encumbered) =>
              match Originate(listing.receipt, listing.borrower, winner.lender, winner.principal, winner.rate, s.now,
                              winner.durationMs, c.parameters.gracePeriodMs, c.parameters.liquidationFeeBasisPoints)
              case Err(error) => Refuse(s, error)
              case Ok(loan) =>
                if c.loanId in s.loans then Refuse(s, DuplicateId)
                else Outcome(s.(ledger := posted.ledger,
                                receipts := s.receipts[listing.receipt := encumbered],
                                loans := s.loans[c.loanId := loan],
                                listings := s.listings[c.listingId := accepted.listing]),
                             Ok(c.loanId))
  }

  ghost function RepayLoanStep(s: State, c: Command): Outcome
    requires c.RepayLoan?
  {
    if c.loanId !in s.loans then Refuse(s, NotFound)
    else
      var loan := s.loans[c.loanId];
      if loan.borrower != c.requestedBy then Refuse(s, NotResourceOwner)
      else if loan.status != LoanActive then Refuse(s, LoanNotActive)
      else if AmountDue(loan, c.quotedAt) != AmountDue(loan, s.now) then Refuse(s, PayoffQuoteStale)
      else
        match RecordRepayment(loan, c.payment, s.now)
        case Err(error) => Refuse(s, error)
        case Ok(repayment) =>
          match L.Transfer(s.ledger, User(loan.borrower), User(loan.lender), repayment.total, c.loanId)
          case Err(error) => Refuse(s, error)
          case Ok(posted) =>
            if loan.receipt !in s.receipts then Refuse(s, NotFound)
            else
              match Apply(s.receipts[loan.receipt], ReleaseEncumbrance)
              case Err(error) => Refuse(s, error)
              case Ok(released) =>
                Outcome(s.(ledger := posted.ledger,
                           loans := s.loans[c.loanId := repayment.loan],
                           receipts := s.receipts[loan.receipt := released]),
                        Ok(repayment.total))
  }

  function MarkDefaultStep(s: State, c: Command): Outcome
    requires c.MarkDefault?
  {
    if c.loanId !in s.loans then Refuse(s, NotFound)
    else if s.loans[c.loanId].lender != c.requestedBy then Refuse(s, NotResourceOwner)
    else
      match MarkDefaulted(s.loans[c.loanId], s.now)
      case Err(error) => Refuse(s, error)
      case Ok(defaulted) => Outcome(s.(loans := s.loans[c.loanId := defaulted]), Ok(c.loanId))
  }

  /** Custody moves, the loan's status does not, and nothing compares the receipt's loan with this one. */
  function ClaimReceiptStep(s: State, c: Command): Outcome
    requires c.ClaimReceipt?
  {
    if c.loanId !in s.loans then Refuse(s, NotFound)
    else
      var loan := s.loans[c.loanId];
      if loan.lender != c.requestedBy then Refuse(s, NotResourceOwner)
      else if loan.status != LoanDefaulted
           then Refuse(s, if loan.status == LoanActive then LoanNotDefaulted else LoanNotActive)
      else if loan.receipt !in s.receipts then Refuse(s, NotFound)
      else
        match Apply(s.receipts[loan.receipt], ClaimDefault(c.requestedBy))
        case Err(error) => Refuse(s, error)
        case Ok(claimed) => Outcome(s.(receipts := s.receipts[loan.receipt := claimed]), Ok(c.loanId))
  }

  // ----- liquidation -----

  predicate HasSale(s: State, loanId: LoanId) {
    exists x :: x in s.sales && s.sales[x].loan == loanId
  }

  function ScheduleLiquidationStep(s: State, c: Command): Outcome
    requires c.ScheduleLiquidation?
  {
    if c.loanId !in s.loans then Refuse(s, NotFound)
    else
      var loan := s.loans[c.loanId];
      if loan.status != LoanDefaulted || loan.defaultedAt.None? then Refuse(s, LoanNotDefaulted)
      else if HasSale(s, c.loanId) then Refuse(s, LiquidationAlreadyScheduled)
      else
        match CanBeScheduled(loan.defaultedAt.value, s.now, c.parameters)
        case Err(error) => Refuse(s, error)
        case Ok(_) =>
          if c.saleId in s.sales then Refuse(s, DuplicateId)
          else Outcome(s.(sales := s.sales[c.saleId := Schedule(c.loanId, loan.receipt, c.reservePrice)]), Ok(c.saleId))
  }

  function OpenLiquidationStep(s: State, c: Command): Outcome
    requires c.OpenLiquidation?
  {
    if s.paused then Refuse(s, SystemPaused)
    else if c.saleId !in s.sales then Refuse(s, NotFound)
    else
      match Open(s.sales[c.saleId], s.now, s.now + c.windowMs)
      case Err(error) => Refuse(s, error)
      case Ok(bidding) => Outcome(s.(sales := s.sales[c.saleId := bidding]), Ok(c.saleId))
  }

  ghost function PlaceBidStep(s: State, c: Command): Outcome
    requires c.PlaceBid?
  {
    if s.paused then Refuse(s, SystemPaused)
    else if c.saleId !in s.sales then Refuse(s, NotFound)
    else
      var sale := s.sales[c.saleId];
      var probe := Liquidations.PlaceBid(sale, Bid(0, c.requestedBy, c.amount, 0, s.now), s.now);
      if probe.Err? then Refuse(s, probe.error)
      else
        match L.Hold(s.ledger, c.requestedBy, c.amount, c.saleId, c.holdId)
        case Err(error) => Refuse(s, error)
        case Ok(posted) =>
          var accepted := Liquidations.PlaceBid(sale, Bid(c.bidId, c.requestedBy, c.amount, c.holdId, s.now), s.now);
          if accepted.Err? then Refuse(s, accepted.error)
          else if c.bidId in s.bidSlots then Refuse(s, DuplicateId)
          else
            var slot := Slot(c.saleId, |sale.bids|);
            Outcome(s.(ledger := posted.ledger,
                       sales := s.sales[c.saleId := accepted.value],
                       bidSlots := s.bidSlots[c.bidId := slot],
                       origins := s.origins[c.holdId := BidOrigin(slot)]),
                    Ok(c.bidId))
  }

  ghost function ReclaimBidStep(s: State, c: Command): Outcome
    requires c.ReclaimBid?
  {
    if c.saleId !in s.sales then Refuse(s, NotFound)
    else
      var sale := s.sales[c.saleId];
      var found := FindBid(sale.bids, c.bidId);
      if found.None? then Refuse(s, NotFound)
      else
        var bid := sale.bids[found.value];
        if bid.bidder != c.requestedBy then Refuse(s, NotResourceOwner)
        else if !IsReclaimable(HighestBid(sale.bids), sale.winningBid, bid) then Refuse(s, HoldNotReclaimable)
        else
          match L.Refund(s.ledger, bid.hold)
          case Err(error) => Refuse(s, error)
          case Ok(posted) => Outcome(s.(ledger := posted.ledger), Ok(posted.reference))
  }

  /** The movements a closing sale makes: the waterfall without its empty lines. */
  function SettlementLines(loan: Loan, winningBid: Bid, now: Instant): seq<Distribution> {
    DropEmpty(Waterfall.Distribute(winningBid.amount, AmountDue(loan, now), loan.lender, loan.borrower,
                                   loan.liquidationFeeBasisPoints))
  }

  /** What a closing sale does once the proceeds are paid out: burn, end the loan, settle the sale. A loan that refuses
      to be marked liquidated is answered with a returned failure, which commits what was written before it. */
  function SettleSale(s: State, saleId: SaleId, closed: ClosedSale, posted: L.Posted): Outcome
    requires saleId in s.sales && s.sales[saleId].loan in s.loans
  {
    var sale := s.sales[saleId];
    var loan := s.loans[sale.loan];
    if loan.receipt !in s.receipts then Refuse(s, NotFound)
    else
      match Apply(s.receipts[loan.receipt], BurnForLiquidation)
      case Err(error) => Refuse(s, error)
      case Ok(burned) =>
        var moved := s.(ledger := posted.ledger, receipts := s.receipts[loan.receipt := burned]);
        match MarkLiquidated(loan)
        case Err(error) => Outcome(moved, Err(error))
        case Ok(liquidated) =>
          Outcome(moved.(loans := s.loans[sale.loan := liquidated], sales := s.sales[saleId := closed.sale]),
                  Ok(posted.reference))
  }

  /** Every refusal before the burn is thrown or precedes the writes. */
  ghost function CloseLiquidationStep(s: State, c: Command): Outcome
    requires c.CloseLiquidation?
  {
    if c.saleId !in s.sales || s.sales[c.saleId].loan !in s.loans then Refuse(s, NotFound)
    else
      var loan := s.loans[s.sales[c.saleId].loan];
      match Close(s.sales[c.saleId])
      case Err(error) => Refuse(s, error)
      case Ok(closed) =>
        match L.Release(s.ledger, closed.winningBid.hold, SettlementLines(loan, closed.winningBid, s.now),
                        L.SettleLiquidationKind)
        case Err(error) => Refuse(s, error)
        case Ok(posted) => SettleSale(s, c.saleId, closed, posted)
  }

  // ----- steps and runs -----

  predicate IsPlain(c: Command) {
    c.Tick? || c.SetPaused? || c.Deposit? || c.Withdraw? || c.IssueReceipt? || c.RequestRedemption?
  }

  predicate IsMarket(c: Command) {
    c.CreateListing? || c.PublishListing? || c.CancelListing? || c.PlaceOffer? || c.WithdrawOffer? || c.ReclaimHold?
  }

  predicate IsLending(c: Command) {
    c.AcceptOffer? || c.RepayLoan? || c.MarkDefault? || c.ClaimReceipt?
  }

  predicate IsAuction(c: Command) {
    c.ScheduleLiquidation? || c.OpenLiquidation? || c.PlaceBid? || c.ReclaimBid? || c.CloseLiquidation?
  }

  ghost function PlainStep(s: State, c: Command): Outcome
    requires IsPlain(c)
  {
    if c.Tick? then TickStep(s, c)
    else if c.SetPaused? then Outcome(s.(paused := c.pause), Ok(0))
    else if c.Deposit? then DepositStep(s, c)
    else if c.Withdraw? then WithdrawStep(s, c)
    else if c.IssueReceipt? then IssueReceiptStep(s, c)
    else RequestRedemptionStep(s, c)
  }

  ghost function MarketStep(s: State, c: Command): Outcome
    requires IsMarket(c)
  {
    if c.CreateListing? then CreateListingStep(s, c)
    else if c.PublishListing? then PublishListingStep(s, c)
    else if c.CancelListing? then CancelListingStep(s, c)
    else if c.PlaceOffer? then PlaceOfferStep(s, c)
    else if c.WithdrawOffer? then WithdrawOfferStep(s, c)
    else ReclaimHoldStep(s, c)
  }

  ghost function LendingStep(s: State, c: Command): Outcome
    requires IsLending(c)
  {
    if c.AcceptOffer? then AcceptOfferStep(s, c)
    else if c.RepayLoan? then RepayLoanStep(s, c)
    else if c.MarkDefault? then MarkDefaultStep(s, c)
    else ClaimReceiptStep(s, c)
  }

  ghost function AuctionStep(s: State, c: Command): Outcome
    requires IsAuction(c)
  {
    if c.ScheduleLiquidation? then ScheduleLiquidationStep(s, c)
    else if c.OpenLiquidation? then OpenLiquidationStep(s, c)
    else if c.PlaceBid? then PlaceBidStep(s, c)
    else if c.ReclaimBid? then ReclaimBidStep(s, c)
    else CloseLiquidationStep(s, c)
  }

  ghost function Step(s: State, c: Command): Outcome {
    if IsPlain(c) then PlainStep(s, c)
    else if IsMarket(c) then MarketStep(s, c)
    else if IsLending(c) then LendingStep(s, c)
    else AuctionStep(s, c)
  }

  /** Each command is answered by the step of its own name. */
  lemma StepDispatches(s: State, c: Command)
    ensures c.Tick? ==> Step(s, c) == TickStep(s, c)
    ensures c.Deposit? ==> Step(s, c) == DepositStep(s, c)
    ensures c.Withdraw? ==> Step(s, c) == WithdrawStep(s, c)
    ensures c.IssueReceipt? ==> Step(s, c) == IssueReceiptStep(s, c)
    ensures c.RequestRedemption? ==> Step(s, c) == RequestRedemptionStep(s, c)
    ensures c.CreateListing? ==> Step(s, c) == CreateListingStep(s, c)
    ensures c.PublishListing? ==> Step(s, c) == PublishListingStep(s, c)
    ensures c.CancelListing? ==> Step(s, c) == CancelListingStep(s, c)
    ensures c.PlaceOffer? ==> Step(s, c) == PlaceOfferStep(s, c)
    ensures c.WithdrawOffer? ==> Step(s, c) == WithdrawOfferStep(s, c)
    ensures c.ReclaimHold? ==> Step(s, c) == ReclaimHoldStep(s, c)
    ensures c.AcceptOffer? ==> Step(s, c) == AcceptOfferStep(s, c)
    ensures c.RepayLoan? ==> Step(s, c) == RepayLoanStep(s, c)
    ensures c.MarkDefault? ==> Step(s, c) == MarkDefaultStep(s, c)
    ensures c.ClaimReceipt? ==> Step(s, c) == ClaimReceiptStep(s, c)
    ensures c.ScheduleLiquidation? ==> Step(s, c) == ScheduleLiquidationStep(s, c)
    ensures c.OpenLiquidation? ==> Step(s, c) == OpenLiquidationStep(s, c)
    ensures c.PlaceBid? ==> Step(s, c) == PlaceBidStep(s, c)
    ensures c.ReclaimBid? ==> Step(s, c) == ReclaimBidStep(s, c)
    ensures c.CloseLiquidation? ==> Step(s, c) == CloseLiquidationStep(s, c)
  {}

  /** The state after a sequence of commands, refused ones included. */
  ghost function Run(s: State, commands: seq<Command>): State {
    if commands == [] then s
    else Step(Run(s, commands[..|commands| - 1]), commands[|commands| - 1]).state
  }
}
