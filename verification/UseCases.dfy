/** The use cases as the application performs them: each reads and writes the tables in the order of the source,
    inside a unit of work that takes everything back when an error is thrown. Each is proved to be the step of
    the transition system of the same name. */
module UseCases {
  import opened Shared
  import opened Distributions
  import opened CustodyReceipts
  import opened Loans
  import opened Marketplace
  import opened Liquidations
  import opened LedgerSettlementAdapter
  import Waterfall
  import L = Ledger
  import P = Protocol

  /** The tables as a unit of work found them. */
  datatype Tables = Tables(
    journal: seq<L.Transaction>,
    holds: map<HoldId, L.FundsHold>,
    listings: map<P.ListingId, Listing>,
    offerSlots: map<OfferId, P.Slot>,
    loans: map<LoanId, Loan>,
    receipts: map<ReceiptId, Receipt>,
    sales: map<P.SaleId, Sale>,
    bidSlots: map<BidId, P.Slot>)

  class Platform {
    var now: Instant
    var paused: bool
    const settlement: Adapter
    var listings: map<P.ListingId, Listing>
    var offerSlots: map<OfferId, P.Slot>
    var loans: map<LoanId, Loan>
    var receipts: map<ReceiptId, Receipt>
    var sales: map<P.SaleId, Sale>
    var bidSlots: map<BidId, P.Slot>
    ghost var origins: map<HoldId, P.Origin>

    ghost function View(): P.State
      reads this, settlement
    {
      P.State(now, paused, settlement.View(), listings, offerSlots, loans, receipts, sales, bidSlots, origins)
    }

    constructor ()
      ensures View() == P.Initial
      ensures fresh(settlement)
    {
      settlement := new Adapter();
      now, paused := 0, false;
      listings, offerSlots, loans, receipts, sales, bidSlots, origins :=
        map[], map[], map[], map[], map[], map[], map[];
    }

    // ----- the unit of work -----

    method Begin() returns (saved: Tables)
      ensures saved == Tables(settlement.journal, settlement.holds, listings, offerSlots, loans, receipts, sales,
                              bidSlots)
    {
      saved := Tables(settlement.journal, settlement.holds, listings, offerSlots, loans, receipts, sales, bidSlots);
    }

    method RollBack(saved: Tables)
      modifies this`listings, this`offerSlots, this`loans, this`receipts, this`sales, this`bidSlots, settlement
      ensures View() == P.State(now, paused, L.Ledger(saved.journal, saved.holds), saved.listings, saved.offerSlots,
                                saved.loans,
                                saved.receipts, saved.sales, saved.bidSlots, origins)
    {
      settlement.journal, settlement.holds := saved.journal, saved.holds;
      listings, offerSlots, loans := saved.listings, saved.offerSlots, saved.loans;
      receipts, sales, bidSlots := saved.receipts, saved.sales, saved.bidSlots;
    }

    /** The statements of a unit of work end as the step does; what they wrote matters only if nothing was thrown. */
    ghost predicate Ends(step: P.Outcome, before: P.State, result: Result<nat>, thrown: bool)
      reads this, settlement
    {
      && step.result == result
      && (thrown ==> step.state == before && now == before.now && paused == before.paused && origins == before.origins)
      && (!thrown ==> step.state == View())
    }

    /** The custody adapter: load, apply, save. */
    method TransitionReceipt(id: ReceiptId, event: ReceiptEvent) returns (thrown: Option<Error>)
      modifies this`receipts
      ensures id !in old(receipts) ==> thrown == Some(NotFound) && receipts == old(receipts)
      ensures id in old(receipts) ==>
                match Apply(old(receipts)[id], event)
                case Err(error) => thrown == Some(error) && receipts == old(receipts)
                case Ok(changed) => thrown == None && receipts == old(receipts)[id := changed]
    {
      if id !in receipts {
        return Some(NotFound);
      }
      var changed := Apply(receipts[id], event);
      if changed.Err? {
        return Some(changed.error);
      }
      receipts := receipts[id := changed.value];
      return None;
    }

    // ----- wallet -----

    method DepositStatements(user: UserId, amount: int)
      returns (result: Result<nat>, thrown: bool)
      modifies this, settlement
      ensures Ends(P.DepositStep(old(View()), P.Deposit(user, amount)), old(View()), result, thrown)
    {
      result := settlement.Transfer(PlatformFloat, User(user), amount, 0);
      thrown := result.Err?;
    }

    method Deposit(user: UserId, amount: int) returns (result: Result<nat>)
      modifies this, settlement
      ensures P.Outcome(View(), result)
           == P.DepositStep(old(View()), P.Deposit(user, amount))
    {
      var saved := Begin();
      var thrown;
      result, thrown := DepositStatements(user, amount);
      if thrown {
        RollBack(saved);
      }
    }

    method WithdrawStatements(user: UserId, amount: int)
      returns (result: Result<nat>, thrown: bool)
      modifies this, settlement
      ensures Ends(P.WithdrawStep(old(View()), P.Withdraw(user, amount)), old(View()), result, thrown)
    {
      result := settlement.Transfer(User(user), PlatformFloat, amount, 0);
      thrown := result.Err?;
    }

    method Withdraw(user: UserId, amount: int) returns (result: Result<nat>)
      modifies this, settlement
      ensures P.Outcome(View(), result)
           == P.WithdrawStep(old(View()), P.Withdraw(user, amount))
    {
      var saved := Begin();
      var thrown;
      result, thrown := WithdrawStatements(user, amount);
      if thrown {
        RollBack(saved);
      }
    }

    // ----- marketplace -----

    method CreateListing(newListing: P.ListingId, requestedBy: UserId, receiptId: ReceiptId, principal: int, rate: nat,
                         durationMs: int, lifetimeMs: int, parameters: Parameters) returns (result: Result<nat>)
      modifies this
      ensures P.Outcome(View(), result)
           == P.CreateListingStep(old(View()),
                                  P.CreateListing(newListing, requestedBy, receiptId, principal, rate, durationMs,
                                                  lifetimeMs, parameters))
    {
      if paused {
        return Err(SystemPaused);
      }
      if receiptId !in receipts {
        return Err(NotFound);
      }
      var receipt := receipts[receiptId];
      if receipt.holder != requestedBy {
        return Err(NotResourceOwner);
      }
      if receipt.status != InVault {
        return Err(ReceiptNotInVault);
      }
      if live :| live in listings && listings[live].receipt == receiptId && LiveListing(listings[live]) {
        return Err(ReceiptAlreadyListed);
      }
      if rate > parameters.maxRate {
        return Err(RateAboveMaximum);
      }
      var within := WithinLoanToValue(principal, receipt.appraisedValue, receipt.category, parameters);
      if within.Err? {
        return Err(within.error);
      }
      var drafted := Draft(Listing(requestedBy, receiptId, principal, rate, durationMs, now + lifetimeMs, ListingDraft,
                                   []), now);
      if drafted.Err? {
        return Err(drafted.error);
      }
      if newListing in listings {
        return Err(DuplicateId);
      }
      listings := listings[newListing := drafted.value];
      return Ok(newListing);
    }

    method PublishListing(listingId: P.ListingId, requestedBy: UserId) returns (result: Result<nat>)
      modifies this
      ensures P.Outcome(View(), result) == P.PublishListingStep(old(View()), P.PublishListing(listingId, requestedBy))
    {
      if paused {
        return Err(SystemPaused);
      }
      if listingId !in listings {
        return Err(NotFound);
      }
      var listing := listings[listingId];
      if listing.borrower != requestedBy {
        return Err(NotResourceOwner);
      }
      if listing.receipt !in receipts || receipts[listing.receipt].status != InVault {
        return Err(ReceiptNotInVault);
      }
      if receipts[listing.receipt].holder != requestedBy {
        return Err(NotResourceOwner);
      }
      var published := Publish(listing, now);
      if published.Err? {
        return Err(published.error);
      }
      listings := listings[listingId := published.value];
      return Ok(listingId);
    }

    method CancelListing(listingId: P.ListingId, requestedBy: UserId) returns (result: Result<nat>)
      modifies this
      ensures P.Outcome(View(), result) == P.CancelListingStep(old(View()), P.CancelListing(listingId, requestedBy))
    {
      if listingId !in listings {
        return Err(NotFound);
      }
      var cancelled := CancelOn(listings[listingId], requestedBy);
      if cancelled.Err? {
        return Err(cancelled.error);
      }
      listings := listings[listingId := cancelled.value.listing];
      return Ok(listingId);
    }

    method PlaceOfferStatements(listingId: P.ListingId, requestedBy: UserId, principal: int, rate: nat, durationMs: int,
                                expiresAt: Instant,
                      newOffer: OfferId, newHold: HoldId, parameters: Parameters)
      returns (result: Result<nat>, thrown: bool)
      modifies this, settlement
      ensures Ends(P.PlaceOfferStep(old(View()),
                                    P.PlaceOffer(listingId, requestedBy, principal, rate, durationMs, expiresAt,
                                                 newOffer, newHold, parameters)), old(View()), result, thrown)
    {
      if paused {
        return Err(SystemPaused), false;
      }
      if listingId !in listings || listings[listingId].receipt !in receipts {
        return Err(NotFound), false;
      }
      var listing := listings[listingId];
      var receipt := receipts[listing.receipt];
      var offer := Offer(newOffer, requestedBy, principal, rate, durationMs, 0, expiresAt, now, OfferPending);
      var probe := AddOffer(listing, offer, receipt.appraisedValue, receipt.category, parameters, now);
      if probe.Err? {
        return Err(probe.error), false;
      }
      var held := settlement.Hold(requestedBy, principal, listingId, newHold);
      if held.Err? {
        return Err(held.error), true;
      }
      var added := AddOffer(listing, offer.(hold := newHold), receipt.appraisedValue, receipt.category, parameters,
                            now);
      assert added.Ok?;
      if newOffer in offerSlots {
        return Err(DuplicateId), true;
      }
      listings := listings[listingId := added.value];
      offerSlots := offerSlots[newOffer := P.Slot(listingId, |listing.offers|)];
      origins := origins[newHold := P.OfferOrigin(P.Slot(listingId, |listing.offers|))];
      return Ok(newOffer), false;
    }

    /** Validates on a probe, takes the hold, and adds the offer that carries it. */
    method PlaceOffer(listingId: P.ListingId, requestedBy: UserId, principal: int, rate: nat, durationMs: int,
                      expiresAt: Instant,
                      newOffer: OfferId, newHold: HoldId, parameters: Parameters) returns (result: Result<nat>)
      modifies this, settlement
      ensures P.Outcome(View(), result)
           == P.PlaceOfferStep(old(View()),
                               P.PlaceOffer(listingId, requestedBy, principal, rate, durationMs, expiresAt, newOffer,
                                            newHold, parameters))
    {
      var saved := Begin();
      var thrown;
      result, thrown := PlaceOfferStatements(listingId, requestedBy, principal, rate, durationMs, expiresAt, newOffer,
                                             newHold, parameters);
      if thrown {
        RollBack(saved);
      }
    }

    method WithdrawOfferStatements(listingId: P.ListingId, offerId: OfferId, requestedBy: UserId,
                                   parameters: Parameters)
      returns (result: Result<nat>, thrown: bool)
      modifies this, settlement
      ensures Ends(P.WithdrawOfferStep(old(View()), P.WithdrawOffer(listingId, offerId, requestedBy, parameters)),
                   old(View()), result, thrown)
    {
      if listingId !in listings {
        return Err(OfferNotFound), false;
      }
      var withdrawn := Marketplace.WithdrawOffer(listings[listingId], offerId, requestedBy, parameters, now);
      if withdrawn.Err? {
        return Err(withdrawn.error), false;
      }
      result := settlement.RefundHold(withdrawn.value.offer.hold);
      if result.Err? {
        return result, true;
      }
      listings := listings[listingId := withdrawn.value.listing];
      thrown := false;
    }

    method WithdrawOffer(listingId: P.ListingId, offerId: OfferId, requestedBy: UserId, parameters: Parameters)
      returns (result: Result<nat>)
      modifies this, settlement
      ensures P.Outcome(View(), result)
           == P.WithdrawOfferStep(old(View()), P.WithdrawOffer(listingId, offerId, requestedBy, parameters))
    {
      var saved := Begin();
      var thrown;
      result, thrown := WithdrawOfferStatements(listingId, offerId, requestedBy, parameters);
      if thrown {
        RollBack(saved);
      }
    }

    method ReclaimHoldStatements(offerId: OfferId, requestedBy: UserId)
      returns (result: Result<nat>, thrown: bool)
      modifies this, settlement
      ensures Ends(P.ReclaimHoldStep(old(View()), P.ReclaimHold(offerId, requestedBy)), old(View()), result, thrown)
    {
      if offerId !in offerSlots || offerSlots[offerId].parent !in listings {
        return Err(OfferNotFound), false;
      }
      var offers := listings[offerSlots[offerId].parent].offers;
      var found := FindOffer(offers, offerId);
      if found.None? {
        return Err(OfferNotFound), false;
      }
      var offer := offers[found.value];
      if offer.lender != requestedBy {
        return Err(NotResourceOwner), false;
      }
      var isExpiredPending := offer.status == OfferPending && now > offer.expiresAt;
      if offer.status != OfferSuperseded && offer.status != OfferExpired && !isExpiredPending {
        return Err(HoldNotReclaimable), false;
      }
      result := settlement.RefundHold(offer.hold);
      thrown := result.Err?;
    }

    /** Refunds the hold and writes no offer status. */
    method ReclaimHold(offerId: OfferId, requestedBy: UserId) returns (result: Result<nat>)
      modifies this, settlement
      ensures P.Outcome(View(), result)
           == P.ReclaimHoldStep(old(View()), P.ReclaimHold(offerId, requestedBy))
    {
      var saved := Begin();
      var thrown;
      result, thrown := ReclaimHoldStatements(offerId, requestedBy);
      if thrown {
        RollBack(saved);
      }
    }

    // ----- lending -----

    method AcceptOfferStatements(listingId: P.ListingId, offerId: OfferId, requestedBy: UserId, newLoan: LoanId,
                                 parameters: Parameters)
      returns (result: Result<nat>, thrown: bool)
      modifies this, settlement
      ensures Ends(P.AcceptOfferStep(old(View()), P.AcceptOffer(listingId, offerId, requestedBy, newLoan, parameters)),
                   old(View()), result, thrown)
    {
      if paused {
        return Err(SystemPaused), false;
      }
      if listingId !in listings || listings[listingId].receipt !in receipts {
        return Err(NotFound), false;
      }
      var listing := listings[listingId];
      var receipt := receipts[listing.receipt];
      var accepted := AcceptOfferOn(listing, offerId, requestedBy, parameters, now);
      if accepted.Err? {
        return Err(accepted.error), false;
      }
      var winner := accepted.value.winningOffer;
      var within := WithinLoanToValue(winner.principal, receipt.appraisedValue, receipt.category, parameters);
      if within.Err? {
        return Err(within.error), false;
      }
      var released := settlement.ReleaseHold(
        winner.hold,
        [Distribution(User(listing.borrower), accepted.value.disbursement),
         Distribution(PlatformFeeRevenue, accepted.value.originationFee)],
        L.OriginateLoanKind);
      if released.Err? {
        return Err(released.error), true;
      }
      var refused := TransitionReceipt(listing.receipt, Encumber(newLoan));
      if refused.Some? {
        return Err(refused.value), true;
      }
      var loan := Originate(listing.receipt, listing.borrower, winner.lender, winner.principal, winner.rate, now,
                            winner.durationMs, parameters.gracePeriodMs, parameters.liquidationFeeBasisPoints);
      if loan.Err? {
        return Err(loan.error), true;
      }
      if newLoan in loans {
        return Err(DuplicateId), true;
      }
      loans := loans[newLoan := loan.value];
      listings := listings[listingId := accepted.value.listing];
      return Ok(newLoan), false;
    }

    /** Releases the winning hold to borrower and platform, encumbers the receipt, and saves loan and listing. */
    method AcceptOffer(listingId: P.ListingId, offerId: OfferId, requestedBy: UserId, newLoan: LoanId,
                       parameters: Parameters) returns (result: Result<nat>)
      modifies this, settlement
      ensures P.Outcome(View(), result)
           == P.AcceptOfferStep(old(View()), P.AcceptOffer(listingId, offerId, requestedBy, newLoan, parameters))
    {
      var saved := Begin();
      var thrown;
      result, thrown := AcceptOfferStatements(listingId, offerId, requestedBy, newLoan, parameters);
      if thrown {
        RollBack(saved);
      }
    }

    method RepayLoanStatements(loanId: LoanId, requestedBy: UserId, payment: int, quotedAt: Instant)
      returns (result: Result<nat>, thrown: bool)
      modifies this, settlement
      ensures Ends(P.RepayLoanStep(old(View()), P.RepayLoan(loanId, requestedBy, payment, quotedAt)), old(View()),
                   result, thrown)
    {
      if loanId !in loans {
        return Err(NotFound), false;
      }
      var loan := loans[loanId];
      if loan.borrower != requestedBy {
        return Err(NotResourceOwner), false;
      }
      if loan.status != LoanActive {
        return Err(LoanNotActive), false;
      }
      if AmountDue(loan, quotedAt) != AmountDue(loan, now) {
        return Err(PayoffQuoteStale), false;
      }
      var recorded := RecordRepayment(loan, payment, now);
      if recorded.Err? {
        return Err(recorded.error), false;
      }
      var paid := settlement.Transfer(User(loan.borrower), User(loan.lender), recorded.value.total, loanId);
      if paid.Err? {
        return Err(paid.error), true;
      }
      loans := loans[loanId := recorded.value.loan];
      var refused := TransitionReceipt(loan.receipt, ReleaseEncumbrance);
      if refused.Some? {
        return Err(refused.value), true;
      }
      return Ok(recorded.value.total), false;
    }

    /** Pays the note holder what is due, saves the loan, and frees the receipt. */
    method RepayLoan(loanId: LoanId, requestedBy: UserId, payment: int, quotedAt: Instant) returns (result: Result<nat>)
      modifies this, settlement
      ensures P.Outcome(View(), result)
           == P.RepayLoanStep(old(View()), P.RepayLoan(loanId, requestedBy, payment, quotedAt))
    {
      var saved := Begin();
      var thrown;
      result, thrown := RepayLoanStatements(loanId, requestedBy, payment, quotedAt);
      if thrown {
        RollBack(saved);
      }
    }

    method MarkDefault(loanId: LoanId, requestedBy: UserId) returns (result: Result<nat>)
      modifies this
      ensures P.Outcome(View(), result) == P.MarkDefaultStep(old(View()), P.MarkDefault(loanId, requestedBy))
    {
      if loanId !in loans {
        return Err(NotFound);
      }
      var loan := loans[loanId];
      if loan.lender != requestedBy {
        return Err(NotResourceOwner);
      }
      var defaulted := MarkDefaulted(loan, now);
      if defaulted.Err? {
        return Err(defaulted.error);
      }
      loans := loans[loanId := defaulted.value];
      return Ok(loanId);
    }

    method ClaimReceipt(loanId: LoanId, requestedBy: UserId) returns (result: Result<nat>)
      modifies this
      ensures P.Outcome(View(), result) == P.ClaimReceiptStep(old(View()), P.ClaimReceipt(loanId, requestedBy))
    {
      if loanId !in loans {
        return Err(NotFound);
      }
      var loan := loans[loanId];
      if loan.lender != requestedBy {
        return Err(NotResourceOwner);
      }
      if loan.status != LoanDefaulted {
        return Err(if loan.status == LoanActive then LoanNotDefaulted else LoanNotActive);
      }
      var refused := TransitionReceipt(loan.receipt, ClaimDefault(requestedBy));
      if refused.Some? {
        return Err(refused.value);
      }
      return Ok(loanId);
    }

    // ----- liquidation -----

    method ScheduleLiquidation(newSale: P.SaleId, loanId: LoanId, reservePrice: int, parameters: Parameters)
      returns (result: Result<nat>)
      modifies this
      ensures P.Outcome(View(), result)
                == P.ScheduleLiquidationStep(old(View()),
                                             P.ScheduleLiquidation(newSale, loanId, reservePrice, parameters))
    {
      if loanId !in loans {
        return Err(NotFound);
      }
      var loan := loans[loanId];
      if loan.status != LoanDefaulted || loan.defaultedAt.None? {
        return Err(LoanNotDefaulted);
      }
      if existing :| existing in sales && sales[existing].loan == loanId {
        return Err(LiquidationAlreadyScheduled);
      }
      var withinRules := CanBeScheduled(loan.defaultedAt.value, now, parameters);
      if withinRules.Err? {
        return Err(withinRules.error);
      }
      if newSale in sales {
        return Err(DuplicateId);
      }
      sales := sales[newSale := Schedule(loanId, loan.receipt, reservePrice)];
      return Ok(newSale);
    }

    method OpenLiquidation(saleId: P.SaleId, windowMs: int) returns (result: Result<nat>)
      modifies this
      ensures P.Outcome(View(), result) == P.OpenLiquidationStep(old(View()), P.OpenLiquidation(saleId, windowMs))
    {
      if paused {
        return Err(SystemPaused);
      }
      if saleId !in sales {
        return Err(NotFound);
      }
      var bidding := Open(sales[saleId], now, now + windowMs);
      if bidding.Err? {
        return Err(bidding.error);
      }
      sales := sales[saleId := bidding.value];
      return Ok(saleId);
    }

    method PlaceBidStatements(saleId: P.SaleId, requestedBy: UserId, amount: int, newBid: BidId, newHold: HoldId)
      returns (result: Result<nat>, thrown: bool)
      modifies this, settlement
      ensures Ends(P.PlaceBidStep(old(View()), P.PlaceBid(saleId, requestedBy, amount, newBid, newHold)), old(View()),
                   result, thrown)
    {
      if paused {
        return Err(SystemPaused), false;
      }
      if saleId !in sales {
        return Err(NotFound), false;
      }
      var sale := sales[saleId];
      var probe := Liquidations.PlaceBid(sale, Bid(0, requestedBy, amount, 0, now), now);
      if probe.Err? {
        return Err(probe.error), false;
      }
      var held := settlement.Hold(requestedBy, amount, saleId, newHold);
      if held.Err? {
        return Err(held.error), true;
      }
      var accepted := Liquidations.PlaceBid(sale, Bid(newBid, requestedBy, amount, newHold, now), now);
      assert accepted.Ok?;
      if newBid in bidSlots {
        return Err(DuplicateId), true;
      }
      sales := sales[saleId := accepted.value];
      bidSlots := bidSlots[newBid := P.Slot(saleId, |sale.bids|)];
      origins := origins[newHold := P.BidOrigin(P.Slot(saleId, |sale.bids|))];
      return Ok(newBid), false;
    }

    method PlaceBid(saleId: P.SaleId, requestedBy: UserId, amount: int, newBid: BidId, newHold: HoldId)
      returns (result: Result<nat>)
      modifies this, settlement
      ensures P.Outcome(View(), result)
           == P.PlaceBidStep(old(View()), P.PlaceBid(saleId, requestedBy, amount, newBid, newHold))
    {
      var saved := Begin();
      var thrown;
      result, thrown := PlaceBidStatements(saleId, requestedBy, amount, newBid, newHold);
      if thrown {
        RollBack(saved);
      }
    }

    method ReclaimBidStatements(saleId: P.SaleId, bidId: BidId, requestedBy: UserId)
      returns (result: Result<nat>, thrown: bool)
      modifies this, settlement
      ensures Ends(P.ReclaimBidStep(old(View()), P.ReclaimBid(saleId, bidId, requestedBy)), old(View()), result, thrown)
    {
      if saleId !in sales {
        return Err(NotFound), false;
      }
      var sale := sales[saleId];
      var found := FindBid(sale.bids, bidId);
      if found.None? {
        return Err(NotFound), false;
      }
      var bid := sale.bids[found.value];
      if bid.bidder != requestedBy {
        return Err(NotResourceOwner), false;
      }
      if !IsReclaimable(HighestBid(sale.bids), sale.winningBid, bid) {
        return Err(HoldNotReclaimable), false;
      }
      result := settlement.RefundHold(bid.hold);
      thrown := result.Err?;
    }

    method ReclaimBid(saleId: P.SaleId, bidId: BidId, requestedBy: UserId) returns (result: Result<nat>)
      modifies this, settlement
      ensures P.Outcome(View(), result)
           == P.ReclaimBidStep(old(View()), P.ReclaimBid(saleId, bidId, requestedBy))
    {
      var saved := Begin();
      var thrown;
      result, thrown := ReclaimBidStatements(saleId, bidId, requestedBy);
      if thrown {
        RollBack(saved);
      }
    }

    method CloseLiquidationStatements(saleId: P.SaleId)
      returns (result: Result<nat>, thrown: bool)
      modifies this, settlement
      ensures Ends(P.CloseLiquidationStep(old(View()), P.CloseLiquidation(saleId)), old(View()), result, thrown)
    {
      if saleId !in sales || sales[saleId].loan !in loans {
        return Err(NotFound), false;
      }
      var sale := sales[saleId];
      var loan := loans[sale.loan];
      var closed := Close(sale);
      if closed.Err? {
        return Err(closed.error), false;
      }
      var winner := closed.value.winningBid;
      var lines := Waterfall.Distribute(winner.amount, AmountDue(loan, now), loan.lender, loan.borrower,
                                        loan.liquidationFeeBasisPoints);
      var released := settlement.ReleaseHold(winner.hold, DropEmpty(lines), L.SettleLiquidationKind);
      if released.Err? {
        return Err(released.error), true;
      }
      var refused := TransitionReceipt(loan.receipt, BurnForLiquidation);
      if refused.Some? {
        return Err(refused.value), true;
      }
      var liquidated := MarkLiquidated(loan);
      if liquidated.Err? {
        return Err(liquidated.error), false;
      }
      loans := loans[sale.loan := liquidated.value];
      sales := sales[saleId := closed.value.sale];
      return released, false;
    }

    /** Pays out the waterfall from the winning hold, burns the receipt, and saves loan and sale. A loan that
        refuses is answered with a returned failure, which does not roll back. */
    method CloseLiquidation(saleId: P.SaleId) returns (result: Result<nat>)
      modifies this, settlement
      ensures P.Outcome(View(), result)
           == P.CloseLiquidationStep(old(View()), P.CloseLiquidation(saleId))
    {
      var saved := Begin();
      var thrown;
      result, thrown := CloseLiquidationStatements(saleId);
      if thrown {
        RollBack(saved);
      }
    }
  }
}
