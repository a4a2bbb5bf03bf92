/** What a refusal says: in every reachable state each use case that fails names a condition that really holds, and
    leaves the state as it was. */
module Refusals {
  import opened Shared
  import opened Money
  import opened Distributions
  import opened LedgerTransaction
  import opened CustodyReceipts
  import opened Loans
  import opened Marketplace
  import opened Liquidations
  import opened Protocol
  import opened Invariant
  import opened Preservation
  import opened Theorems
  import opened Settlement
  import opened Operations
  import L = Ledger

  // ----- what each refusal claims -----

  predicate AboveCap(principal: int, receipt: Receipt, parameters: Parameters) {
    receipt.category in parameters.loanToValueCaps
    && principal > MultiplyByBasisPoints(receipt.appraisedValue, parameters.loanToValueCaps[receipt.category])
  }

  predicate TermsRefused(principal: int, receipt: Receipt, parameters: Parameters, error: Error) {
    || (error == LoanToValueCapMissing && receipt.category !in parameters.loanToValueCaps)
    || (error == LoanToValueExceeded && AboveCap(principal, receipt, parameters))
  }

  predicate ListingClosed(listing: Listing, now: Instant, error: Error) {
    || (error == ListingNotActive && listing.status != ListingActive)
    || (error == ListingExpired && now > listing.expiresAt)
  }

  ghost predicate HoldRefused(s: State, user: UserId, amount: int, h: HoldId, error: Error) {
    || (error == InsufficientFunds && Spendable(s, user) < amount)
    || (error == NonPositiveEntryAmount && amount <= 0)
    || (error == DuplicateId && h in s.ledger.holds)
  }

  ghost predicate WalletRefused(s: State, c: Command, error: Error)
    requires c.Deposit? || c.Withdraw?
  {
    || (error == NonPositiveEntryAmount && c.amount <= 0)
    || (error == InsufficientFunds && c.Withdraw? && Spendable(s, c.user) < c.amount)
  }

  predicate CustodyRefused(s: State, c: Command, error: Error)
    requires c.IssueReceipt? || c.RequestRedemption?
  {
    if c.IssueReceipt? then error == DuplicateId && c.receiptId in s.receipts
    else if c.receiptId !in s.receipts then error == NotFound
    else
      var receipt := s.receipts[c.receiptId];
      || (error == NotResourceOwner && receipt.holder != c.requestedBy)
      || (error == ReceiptIsEncumbered && receipt.status == Encumbered)
      || (error == ReceiptAlreadyBurned && !Live(receipt))
  }

  predicate CreateRefused(s: State, c: Command, error: Error)
    requires c.CreateListing?
  {
    if s.paused then error == SystemPaused
    else if c.receiptId !in s.receipts then error == NotFound
    else
      var receipt := s.receipts[c.receiptId];
      || (error == NotResourceOwner && receipt.holder != c.requestedBy)
      || (error == ReceiptNotInVault && receipt.status != InVault)
      || (error == ReceiptAlreadyListed
          && exists l :: l in s.listings && s.listings[l].receipt == c.receiptId && LiveListing(s.listings[l]))
      || (error == RateAboveMaximum && c.rate > c.parameters.maxRate)
      || TermsRefused(c.principal, receipt, c.parameters, error)
      || (error == ListingExpired && c.lifetimeMs < 0)
      || (error == DuplicateId && c.listingId in s.listings)
  }

  predicate PublishRefused(s: State, c: Command, error: Error)
    requires c.PublishListing?
  {
    if s.paused then error == SystemPaused
    else if c.listingId !in s.listings then error == NotFound
    else
      var listing := s.listings[c.listingId];
      || (error == NotResourceOwner && listing.borrower != c.requestedBy)
      || (error == ReceiptNotInVault
          && (listing.receipt !in s.receipts || s.receipts[listing.receipt].status != InVault))
      || (error == NotResourceOwner && listing.receipt in s.receipts
          && s.receipts[listing.receipt].holder != c.requestedBy)
      || (error == ListingNotDraft && listing.status != ListingDraft)
      || (error == ListingExpired && s.now > listing.expiresAt)
  }

  predicate CancelRefused(s: State, c: Command, error: Error)
    requires c.CancelListing?
  {
    if c.listingId !in s.listings then error == NotFound
    else
      || (error == ListingNotActive && !LiveListing(s.listings[c.listingId]))
      || (error == NotResourceOwner && s.listings[c.listingId].borrower != c.requestedBy)
  }

  ghost predicate OfferRefused(s: State, c: Command, error: Error)
    requires c.PlaceOffer?
  {
    if s.paused then error == SystemPaused
    else if c.listingId !in s.listings || s.listings[c.listingId].receipt !in s.receipts then error == NotFound
    else
      var listing := s.listings[c.listingId];
      || ListingClosed(listing, s.now, error)
      || (error == RateAboveMaximum && (c.rate > listing.maxRate || c.rate > c.parameters.maxRate))
      || TermsRefused(c.principal, s.receipts[listing.receipt], c.parameters, error)
      || HoldRefused(s, c.requestedBy, c.principal, c.holdId, error)
      || (error == DuplicateId && c.offerId in s.offerSlots)
  }

  predicate WithdrawalRefused(s: State, c: Command, error: Error)
    requires c.WithdrawOffer?
  {
    if c.listingId !in s.listings || FindOffer(s.listings[c.listingId].offers, c.offerId).None?
    then error == OfferNotFound
    else
      var offers := s.listings[c.listingId].offers;
      var offer := offers[FindOffer(offers, c.offerId).value];
      || (error == NotResourceOwner && offer.lender != c.requestedBy)
      || (error == OfferWithdrawalTooEarly && s.now - offer.createdAt < c.parameters.minimumOfferLifetimeMs)
      || (error == OfferNotPending && offer.status != OfferPending)
  }

  predicate ReclaimRefused(s: State, c: Command, error: Error)
    requires c.ReclaimHold?
  {
    if c.offerId !in s.offerSlots || s.offerSlots[c.offerId].parent !in s.listings
       || FindOffer(s.listings[s.offerSlots[c.offerId].parent].offers, c.offerId).None?
    then error == OfferNotFound
    else
      var offers := s.listings[s.offerSlots[c.offerId].parent].offers;
      var offer := offers[FindOffer(offers, c.offerId).value];
      || (error == NotResourceOwner && offer.lender != c.requestedBy)
      || (error == HoldNotReclaimable
          && (offer.status == OfferAccepted || offer.status == OfferWithdrawn
              || (offer.status == OfferPending && s.now <= offer.expiresAt)))
  }

  predicate AggregateRefused(listing: Listing, c: Command, now: Instant, error: Error)
    requires c.AcceptOffer?
  {
    || (error == ListingAlreadyMatched && listing.status == ListingMatched)
    || ListingClosed(listing, now, error)
    || (error == NotResourceOwner && listing.borrower != c.requestedBy)
    || if FindOffer(listing.offers, c.offerId).None? then error == OfferNotFound
       else
         var offer := listing.offers[FindOffer(listing.offers, c.offerId).value];
         || (error == OfferHasExpired && now > offer.expiresAt)
         || (error == OfferNotPending && offer.status != OfferPending)
  }

  /** The aggregate takes the offer, and something beyond it refuses. */
  predicate OriginationRefused(s: State, c: Command, offer: Offer, receipt: Receipt, error: Error)
    requires c.AcceptOffer?
  {
    var fee := offer.principal * c.parameters.originationFeeBasisPoints / 10_000;
    || TermsRefused(offer.principal, receipt, c.parameters, error)
    || (error == NonPositiveEntryAmount && (fee <= 0 || fee >= offer.principal))
    || (error == ReceiptNotInVault && receipt.status != InVault)
    || (error == LoanTermsInvalid
        && (offer.principal <= 0 || offer.durationMs <= 0 || c.parameters.gracePeriodMs < 0
            || c.parameters.liquidationFeeBasisPoints > 10_000))
    || (error == DuplicateId && c.loanId in s.loans)
  }

  predicate AcceptRefused(s: State, c: Command, error: Error)
    requires c.AcceptOffer?
  {
    if s.paused then error == SystemPaused
    else if c.listingId !in s.listings || s.listings[c.listingId].receipt !in s.receipts then error == NotFound
    else
      var listing := s.listings[c.listingId];
      || AggregateRefused(listing, c, s.now, error)
      || (FindOffer(listing.offers, c.offerId).Some?
          && var offer := listing.offers[FindOffer(listing.offers, c.offerId).value];
             OriginationRefused(s, c, offer, s.receipts[listing.receipt], error))
  }

  ghost predicate RepaymentRefused(s: State, c: Command, error: Error)
    requires c.RepayLoan?
  {
    if c.loanId !in s.loans then error == NotFound
    else
      var loan := s.loans[c.loanId];
      var due := AmountDue(loan, s.now);
      || (error == NotResourceOwner && loan.borrower != c.requestedBy)
      || (error == LoanNotActive && loan.status != LoanActive)
      || (error == PayoffQuoteStale && AmountDue(loan, c.quotedAt) != due)
      || (error == RepaymentAmountInsufficient && c.payment < due)
      || (error == InsufficientFunds && Spendable(s, loan.borrower) < due)
      || (error == ReceiptNotEncumbered && loan.receipt in s.receipts
          && s.receipts[loan.receipt].status != Encumbered)
  }

  predicate DefaultRefused(s: State, c: Command, error: Error)
    requires c.MarkDefault? || c.ClaimReceipt?
  {
    if c.loanId !in s.loans then error == NotFound
    else
      var loan := s.loans[c.loanId];
      || (error == NotResourceOwner && loan.lender != c.requestedBy)
      || (error == LoanNotActive && loan.status != LoanActive)
      || (error == GracePeriodActive && c.MarkDefault? && s.now <= loan.graceEndsAt)
      || (error == LoanNotDefaulted && c.ClaimReceipt? && loan.status == LoanActive)
      || (error == ReceiptNotEncumbered && c.ClaimReceipt? && loan.receipt in s.receipts
          && s.receipts[loan.receipt].status != Encumbered)
  }

  predicate SaleRefused(s: State, c: Command, error: Error)
    requires c.ScheduleLiquidation? || c.OpenLiquidation?
  {
    match c
    case ScheduleLiquidation(x, k, _, parameters) =>
      if k !in s.loans then error == NotFound
      else
        || (error == LoanNotDefaulted && (s.loans[k].status != LoanDefaulted || s.loans[k].defaultedAt.None?))
        || (error == LiquidationAlreadyScheduled && exists y :: y in s.sales && s.sales[y].loan == k)
        || (error == HoldingPeriodActive && s.loans[k].defaultedAt.Some?
            && s.now < s.loans[k].defaultedAt.value + parameters.statutoryHoldingPeriodMs)
        || (error == DuplicateId && x in s.sales)
    case OpenLiquidation(x, _) =>
      if s.paused then error == SystemPaused
      else if x !in s.sales then error == NotFound
      else error == LiquidationNotScheduled && s.sales[x].status != SaleScheduled
  }

  predicate BookRefused(sale: Sale, amount: int, now: Instant, error: Error) {
    || (error == LiquidationNotOpen
        && (sale.status != SaleBidding || (sale.closesAt.Some? && sale.closesAt.value <= now)))
    || (error == BidBelowReserve
        && (amount < sale.reservePrice || exists i :: 0 <= i < |sale.bids| && amount <= sale.bids[i].amount))
  }

  ghost predicate BidRefused(s: State, c: Command, error: Error)
    requires c.PlaceBid?
  {
    if s.paused then error == SystemPaused
    else if c.saleId !in s.sales then error == NotFound
    else
      || BookRefused(s.sales[c.saleId], c.amount, s.now, error)
      || HoldRefused(s, c.requestedBy, c.amount, c.holdId, error)
      || (error == DuplicateId && c.bidId in s.bidSlots)
  }

  /** The standing or winning bid is the last one. */
  predicate BidReclaimRefused(s: State, c: Command, error: Error)
    requires c.ReclaimBid?
  {
    if c.saleId !in s.sales || FindBid(s.sales[c.saleId].bids, c.bidId).None? then error == NotFound
    else
      var bids := s.sales[c.saleId].bids;
      var p := FindBid(bids, c.bidId).value;
      || (error == NotResourceOwner && bids[p].bidder != c.requestedBy)
      || (error == HoldNotReclaimable && p + 1 == |bids|)
  }

  predicate CloseRefused(s: State, c: Command, error: Error)
    requires c.CloseLiquidation?
  {
    if c.saleId !in s.sales then error == NotFound
    else
      var sale := s.sales[c.saleId];
      || (error == LiquidationNotOpen && (sale.status != SaleBidding || sale.bids == []))
      || (error == ReceiptAlreadyBurned && sale.receipt in s.receipts && !Live(s.receipts[sale.receipt]))
  }

  /** What the error claims about the state and the request is so. Ticking and pausing are never refused. */
  ghost predicate Truthful(s: State, c: Command, error: Error) {
    match c
    case Tick(_) => false
    case SetPaused(_) => false
    case Deposit(_, _) => WalletRefused(s, c, error)
    case Withdraw(_, _) => WalletRefused(s, c, error)
    case IssueReceipt(_, _, _, _, _, _) => CustodyRefused(s, c, error)
    case RequestRedemption(_, _) => CustodyRefused(s, c, error)
    case CreateListing(_, _, _, _, _, _, _, _) => CreateRefused(s, c, error)
    case PublishListing(_, _) => PublishRefused(s, c, error)
    case CancelListing(_, _) => CancelRefused(s, c, error)
    case PlaceOffer(_, _, _, _, _, _, _, _, _) => OfferRefused(s, c, error)
    case WithdrawOffer(_, _, _, _) => WithdrawalRefused(s, c, error)
    case ReclaimHold(_, _) => ReclaimRefused(s, c, error)
    case AcceptOffer(_, _, _, _, _) => AcceptRefused(s, c, error)
    case RepayLoan(_, _, _, _) => RepaymentRefused(s, c, error)
    case MarkDefault(_, _) => DefaultRefused(s, c, error)
    case ClaimReceipt(_, _) => DefaultRefused(s, c, error)
    case ScheduleLiquidation(_, _, _, _) => SaleRefused(s, c, error)
    case OpenLiquidation(_, _) => SaleRefused(s, c, error)
    case PlaceBid(_, _, _, _, _) => BidRefused(s, c, error)
    case ReclaimBid(_, _, _) => BidReclaimRefused(s, c, error)
    case CloseLiquidation(_) => CloseRefused(s, c, error)
  }

  /** A refusal that names what is so, and changed nothing; or no refusal. */
  ghost predicate AnswersTruly(s: State, c: Command, answer: Outcome) {
    answer.result.Err? ==> answer.state == s && Truthful(s, c, answer.result.error)
  }

  // ----- each command -----

  lemma WalletAnswersTruly(s: State, c: Command)
    requires c.Deposit? || c.Withdraw?
    ensures AnswersTruly(s, c, Step(s, c))
  {
    PairBuildable(FloatAccount, UserAvailable(c.user), c.amount);
    PairBuildable(UserAvailable(c.user), FloatAccount, c.amount);
  }

  lemma CustodyAnswersTruly(s: State, c: Command)
    requires c.IssueReceipt? || c.RequestRedemption?
    ensures AnswersTruly(s, c, Step(s, c))
  {}

  lemma CreateAnswersTruly(s: State, c: Command)
    requires c.CreateListing?
    ensures AnswersTruly(s, c, CreateListingStep(s, c))
  {}

  lemma PublishAndCancelAnswerTruly(s: State, c: Command)
    requires c.PublishListing? || c.CancelListing?
    ensures AnswersTruly(s, c, Step(s, c))
  {}

  lemma HoldAnswersTruly(s: State, user: UserId, amount: int, reference: nat, h: HoldId)
    requires L.Hold(s.ledger, user, amount, reference, h).Err?
    ensures HoldRefused(s, user, amount, h, L.Hold(s.ledger, user, amount, reference, h).error)
  {
    PairBuildable(UserAvailable(user), UserHeld(user), amount);
  }

  lemma OfferAnswersTruly(s: State, c: Command)
    requires c.PlaceOffer?
    ensures AnswersTruly(s, c, PlaceOfferStep(s, c))
  {
    if L.Hold(s.ledger, c.requestedBy, c.principal, c.listingId, c.holdId).Err? {
      HoldAnswersTruly(s, c.requestedBy, c.principal, c.listingId, c.holdId);
    }
  }

  lemma BookAnswersTruly(sale: Sale, bid: Bid, now: Instant)
    requires Liquidations.PlaceBid(sale, bid, now).Err?
    ensures BookRefused(sale, bid.amount, now, Liquidations.PlaceBid(sale, bid, now).error)
  {
    if sale.bids != [] {
      HighestIsMaximum(sale.bids);
    }
  }

  lemma BidAnswersTruly(s: State, c: Command)
    requires c.PlaceBid?
    ensures AnswersTruly(s, c, PlaceBidStep(s, c))
  {
    if c.saleId in s.sales {
      var probe := Bid(0, c.requestedBy, c.amount, 0, s.now);
      var bid := Bid(c.bidId, c.requestedBy, c.amount, c.holdId, s.now);
      if Liquidations.PlaceBid(s.sales[c.saleId], probe, s.now).Err? {
        BookAnswersTruly(s.sales[c.saleId], probe, s.now);
      } else if Liquidations.PlaceBid(s.sales[c.saleId], bid, s.now).Err? {
        BookAnswersTruly(s.sales[c.saleId], bid, s.now);
      }
    }
    if L.Hold(s.ledger, c.requestedBy, c.amount, c.saleId, c.holdId).Err? {
      HoldAnswersTruly(s, c.requestedBy, c.amount, c.saleId, c.holdId);
    }
  }

  lemma DefaultAnswersTruly(s: State, c: Command)
    requires c.MarkDefault? || c.ClaimReceipt?
    requires c.loanId in s.loans ==> Constructible(s.loans[c.loanId]) && s.loans[c.loanId].receipt in s.receipts
    ensures AnswersTruly(s, c, Step(s, c))
  {}

  lemma SaleAnswersTruly(s: State, c: Command)
    requires c.ScheduleLiquidation? || c.OpenLiquidation?
    ensures AnswersTruly(s, c, Step(s, c))
  {}

  lemma RepaymentAnswersTruly(s: State, c: Command)
    requires c.RepayLoan?
    requires c.loanId in s.loans ==> Constructible(s.loans[c.loanId]) && s.loans[c.loanId].receipt in s.receipts
    ensures AnswersTruly(s, c, RepayLoanStep(s, c))
  {
    if c.loanId in s.loans {
      var loan := s.loans[c.loanId];
      if L.Transfer(s.ledger, User(loan.borrower), User(loan.lender), AmountDue(loan, s.now), c.loanId).Err? {
        TransferAnswersTruly(s, loan, c.loanId);
      }
      TransitionsReconstruct(loan, c.payment, s.now);
    }
  }

  lemma TransferAnswersTruly(s: State, loan: Loan, k: LoanId)
    requires Constructible(loan)
    requires L.Transfer(s.ledger, User(loan.borrower), User(loan.lender), AmountDue(loan, s.now), k).Err?
    ensures L.Transfer(s.ledger, User(loan.borrower), User(loan.lender), AmountDue(loan, s.now), k)
         == Err(InsufficientFunds)
    ensures Spendable(s, loan.borrower) < AmountDue(loan, s.now)
  {
    AmountDueLaws(loan, s.now, s.now);
    PairBuildable(UserAvailable(loan.borrower), UserAvailable(loan.lender), AmountDue(loan, s.now));
  }

  lemma CloseAnswersTruly(s: State, x: SaleId)
    requires Reachable(s)
    ensures AnswersTruly(s, CloseLiquidation(x), Step(s, CloseLiquidation(x)))
  {
    CloseSucceedsExactlyWhen(s, x);
    ReachableIsSound(s);
    if x in s.sales && s.sales[x].status == SaleBidding && s.sales[x].bids != [] {
      BiddingSaleIsReady(s, x);
      ReadyCloseAnswers(s, x);
    } else if x in s.sales {
      assert SaleSound(s.sales[x], s.loans, s.now);
      IdleCloseAnswersTruly(s, x);
    }
  }

  lemma IdleCloseAnswersTruly(s: State, x: SaleId)
    requires x in s.sales && (s.sales[x].status != SaleBidding || s.sales[x].bids == []) && s.sales[x].loan in s.loans
    ensures CloseLiquidationStep(s, CloseLiquidation(x)).result == Err(LiquidationNotOpen)
  {}

  lemma WithdrawalAnswersTruly(s: State, c: Command)
    requires c.WithdrawOffer?
    requires c.listingId in s.listings ==>
               var offers := s.listings[c.listingId].offers;
               var found := FindOffer(offers, c.offerId);
               found.Some? && offers[found.value].status == OfferPending ==>
                 L.Refund(s.ledger, offers[found.value].hold).Ok?
    ensures AnswersTruly(s, c, WithdrawOfferStep(s, c))
  {}

  lemma ReclaimAnswersTruly(s: State, c: Command)
    requires c.ReclaimHold?
    requires c.offerId in s.offerSlots && s.offerSlots[c.offerId].parent in s.listings ==>
               var offers := s.listings[s.offerSlots[c.offerId].parent].offers;
               var found := FindOffer(offers, c.offerId);
               found.Some? && HoldReclaimable(offers[found.value], s.now) ==>
                 L.Refund(s.ledger, offers[found.value].hold).Ok?
    ensures AnswersTruly(s, c, ReclaimHoldStep(s, c))
  {}

  /** The hold behind an offer that can be withdrawn or reclaimed can be refunded. */
  lemma OfferRefundable(s: State, l: ListingId, i: nat)
    requires Inv(s) && l in s.listings && i < |s.listings[l].offers|
    ensures var offer := s.listings[l].offers[i];
            offer.status == OfferPending || HoldReclaimable(offer, s.now) ==> L.Refund(s.ledger, offer.hold).Ok?
  {
    OfferIsFound(s, l, i);
    var offer := s.listings[l].offers[i];
    if s.ledger.holds[offer.hold].status != L.HoldReleased {
      RefundAnswers(s.ledger, offer.hold);
    }
  }

  lemma BidReclaimAnswersTruly(s: State, c: Command)
    requires c.ReclaimBid?
    requires c.saleId in s.sales ==>
               var sale := s.sales[c.saleId];
               var found := FindBid(sale.bids, c.bidId);
               found.Some? ==>
                 var beaten := found.value + 1 != |sale.bids|;
                 && (IsReclaimable(HighestBid(sale.bids), sale.winningBid, sale.bids[found.value]) <==> beaten)
                 && (beaten ==> L.Refund(s.ledger, sale.bids[found.value].hold).Ok?)
    ensures AnswersTruly(s, c, ReclaimBidStep(s, c))
  {}

  /** Exactly the bids that are not the last can be taken back, and the hold behind such a bid can be refunded. */
  lemma BidRefundable(s: State, x: SaleId, p: nat)
    requires Inv(s) && x in s.sales && p < |s.sales[x].bids|
    ensures var sale := s.sales[x];
            && (IsReclaimable(HighestBid(sale.bids), sale.winningBid, sale.bids[p]) <==> p + 1 != |sale.bids|)
            && (p + 1 != |sale.bids| ==> L.Refund(s.ledger, sale.bids[p].hold).Ok?)
  {
    BidIsFound(s, x, p);
    ReclaimableIsBeaten(s, x, p);
    if s.ledger.holds[s.sales[x].bids[p].hold].status != L.HoldReleased {
      RefundAnswers(s.ledger, s.sales[x].bids[p].hold);
    }
  }

  /** What the release behind an acceptance can refuse. */
  ghost predicate ReleasesOrRoundsAway(s: State, c: Command)
    requires c.AcceptOffer? && c.listingId in s.listings
  {
    var listing := s.listings[c.listingId];
    var answer := Marketplace.AcceptOffer(listing, c.offerId, c.requestedBy, c.parameters, s.now);
    answer.Ok? ==>
      var released := L.Release(s.ledger, answer.value.winningOffer.hold, OriginationLines(listing, answer.value),
                                L.OriginateLoanKind);
      var fee := answer.value.winningOffer.principal * c.parameters.originationFeeBasisPoints / 10_000;
      released.Err? ==>
        released.error == NonPositiveEntryAmount && (fee <= 0 || fee >= answer.value.winningOffer.principal)
  }

  lemma AggregateAnswersTruly(listing: Listing, c: Command, now: Instant)
    requires c.AcceptOffer?
    ensures var answer := Marketplace.AcceptOffer(listing, c.offerId, c.requestedBy, c.parameters, now);
            match answer
            case Err(error) => AggregateRefused(listing, c, now, error)
            case Ok(accepted) =>
              var found := FindOffer(listing.offers, c.offerId);
              found.Some? && accepted.winningOffer == listing.offers[found.value].(status := OfferAccepted)
  {}

  /** An acceptance the aggregate takes, with the release's answer known. */
  lemma OriginationAnswersTruly(s: State, c: Command, listing: Listing, accepted: AcceptedOffer)
    requires c.AcceptOffer? && !s.paused && c.listingId in s.listings && listing == s.listings[c.listingId]
    requires listing.receipt in s.receipts
    requires Marketplace.AcceptOffer(listing, c.offerId, c.requestedBy, c.parameters, s.now) == Ok(accepted)
    requires ReleasesOrRoundsAway(s, c)
    ensures var answer := AcceptOfferStep(s, c);
            answer.result.Err? ==>
              answer.state == s
              && OriginationRefused(s, c, accepted.winningOffer, s.receipts[listing.receipt], answer.result.error)
  {}

  lemma AcceptAnswersTruly(s: State, c: Command)
    requires c.AcceptOffer? && (c.listingId in s.listings ==> ReleasesOrRoundsAway(s, c))
    ensures AnswersTruly(s, c, AcceptOfferStep(s, c))
  {
    if !s.paused && c.listingId in s.listings && s.listings[c.listingId].receipt in s.receipts {
      var listing := s.listings[c.listingId];
      AggregateAnswersTruly(listing, c, s.now);
      var answer := Marketplace.AcceptOffer(listing, c.offerId, c.requestedBy, c.parameters, s.now);
      if answer.Ok? {
        OriginationAnswersTruly(s, c, listing, answer.value);
      }
    }
  }

  lemma AcceptanceReleases(s: State, c: Command)
    requires Inv(s) && c.AcceptOffer? && c.listingId in s.listings
    ensures ReleasesOrRoundsAway(s, c)
  {
    var listing := s.listings[c.listingId];
    var answer := Marketplace.AcceptOffer(listing, c.offerId, c.requestedBy, c.parameters, s.now);
    if answer.Ok? {
      var p := FindOffer(listing.offers, c.offerId).value;
      BooksAreWellFormed(s, c.listingId);
      PendingIsHeld(s, c.listingId, p);
      AcceptOfferExactlyWhen(listing, p, c.requestedBy, c.parameters, s.now);
      OriginationReleases(s, listing.offers[p].hold, listing, answer.value);
    }
  }

  // ----- all of them -----

  lemma LendingAnswersTruly(s: State, c: Command)
    requires Inv(s) && (c.AcceptOffer? || c.RepayLoan? || c.MarkDefault? || c.ClaimReceipt?)
    ensures AnswersTruly(s, c, Step(s, c))
  {
    StepDispatches(s, c);
    if c.AcceptOffer? {
      if c.listingId in s.listings { AcceptanceReleases(s, c); }
      AcceptAnswersTruly(s, c);
    } else {
      assert c.loanId in s.loans ==> LoanSound(s.loans[c.loanId], s.now) && s.loans[c.loanId].receipt in s.receipts;
      if c.RepayLoan? { RepaymentAnswersTruly(s, c); } else { DefaultAnswersTruly(s, c); }
    }
  }

  lemma OfferMoneyAnswersTruly(s: State, c: Command)
    requires Inv(s) && (c.WithdrawOffer? || c.ReclaimHold?)
    ensures AnswersTruly(s, c, Step(s, c))
  {
    StepDispatches(s, c);
    if c.WithdrawOffer? {
      if c.listingId in s.listings && FindOffer(s.listings[c.listingId].offers, c.offerId).Some? {
        OfferRefundable(s, c.listingId, FindOffer(s.listings[c.listingId].offers, c.offerId).value);
      }
      WithdrawalAnswersTruly(s, c);
    } else {
      if c.offerId in s.offerSlots && s.offerSlots[c.offerId].parent in s.listings
         && FindOffer(s.listings[s.offerSlots[c.offerId].parent].offers, c.offerId).Some? {
        var l := s.offerSlots[c.offerId].parent;
        OfferRefundable(s, l, FindOffer(s.listings[l].offers, c.offerId).value);
      }
      ReclaimAnswersTruly(s, c);
    }
  }

  lemma PlainAnswersTruly(s: State, c: Command)
    requires IsPlain(c) || c.CreateListing? || c.PublishListing? || c.CancelListing? || c.PlaceOffer?
    ensures AnswersTruly(s, c, Step(s, c))
  {
    StepDispatches(s, c);
    if c.Deposit? || c.Withdraw? { WalletAnswersTruly(s, c); }
    else if c.IssueReceipt? || c.RequestRedemption? { CustodyAnswersTruly(s, c); }
    else if c.CreateListing? { CreateAnswersTruly(s, c); }
    else if c.PublishListing? || c.CancelListing? { PublishAndCancelAnswerTruly(s, c); }
    else if c.PlaceOffer? { OfferAnswersTruly(s, c); }
  }

  lemma AuctionAnswersTruly(s: State, c: Command)
    requires Reachable(s) && IsAuction(c)
    ensures AnswersTruly(s, c, Step(s, c))
  {
    StepDispatches(s, c);
    match c
    case PlaceBid(_, _, _, _, _) => BidAnswersTruly(s, c);
    case ReclaimBid(_, _, _) =>
      ReachableIsSound(s);
      if c.saleId in s.sales && FindBid(s.sales[c.saleId].bids, c.bidId).Some? {
        BidRefundable(s, c.saleId, FindBid(s.sales[c.saleId].bids, c.bidId).value);
      }
      BidReclaimAnswersTruly(s, c);
    case CloseLiquidation(x) => CloseAnswersTruly(s, x);
    case _ => SaleAnswersTruly(s, c);
  }

  /** In every reachable state a use case that is refused changes nothing, and the error it answers names a condition
      that holds of the state and the request. */
  lemma RefusalsAreTruthful(s: State, c: Command)
    requires Reachable(s) && Step(s, c).result.Err?
    ensures Step(s, c).state == s && Truthful(s, c, Step(s, c).result.error)
  {
    if IsAuction(c) {
      AuctionAnswersTruly(s, c);
    } else if c.AcceptOffer? || c.RepayLoan? || c.MarkDefault? || c.ClaimReceipt? {
      ReachableIsSound(s);
      LendingAnswersTruly(s, c);
    } else if c.WithdrawOffer? || c.ReclaimHold? {
      ReachableIsSound(s);
      OfferMoneyAnswersTruly(s, c);
    } else {
      PlainAnswersTruly(s, c);
    }
  }
}
