/** What the invariant means for every run of the protocol. */
module Theorems {
  import opened Shared
  import opened Money
  import opened Distributions
  import opened LedgerTransaction
  import opened CustodyReceipts
  import opened Loans
  import opened Marketplace
  import opened Liquidations
  import opened Protocol
  import opened Invariant
  import opened Preservation
  import L = Ledger

  /** A state some run from the empty platform reaches. */
  ghost predicate Reachable(s: State) {
    exists commands :: s == Run(Initial, commands)
  }

  lemma ReachableIsSound(s: State)
    requires Reachable(s)
    ensures Inv(s)
  {
    var commands :| s == Run(Initial, commands);
    InitialHolds();
    RunKeeps(Initial, commands);
  }

  lemma {:induction false} StepIsReachable(s: State, c: Command)
    requires Reachable(s)
    ensures Reachable(Step(s, c).state)
  {
    var run :| s == Run(Initial, run);
    assert (run + [c])[..|run|] == run;
    assert Step(s, c).state == Run(Initial, run + [c]);
  }

  lemma InitialIsReachable()
    ensures Reachable(Initial)
  {
    assert Initial == Run(Initial, []);
  }

  // ----- the ledger -----

  /** In every reachable state, each user's held balance is the sum of their held holds, nothing but the
      float is negative, and the float is minus all the rest. */
  lemma LedgerConserves(s: State, accounts: set<Account>)
    requires Reachable(s)
    requires L.Covers(s.ledger.journal, accounts) && FloatAccount in accounts
    ensures forall user :: L.Balance(s.ledger.journal, UserHeld(user)) == L.HeldTotal(s.ledger.holds, user)
    ensures forall account :: account != FloatAccount ==> L.Balance(s.ledger.journal, account) >= 0
    ensures L.Balance(s.ledger.journal, FloatAccount) == -L.BalanceSum(s.ledger.journal, accounts - {FloatAccount})
  {
    ReachableIsSound(s);
    L.FloatMirrorsTheRest(s.ledger, accounts);
  }

  /** Over every run no hold is settled by two transactions, whatever their kinds. */
  lemma NoHoldSettlesTwice(s: State, t: L.TransactionId, t': L.TransactionId)
    requires Reachable(s)
    requires t < |s.ledger.journal| && t' < |s.ledger.journal|
    requires L.IsSettlement(s.ledger.journal[t]) && L.IsSettlement(s.ledger.journal[t'])
    requires s.ledger.journal[t].reference == s.ledger.journal[t'].reference
    ensures t == t'
  {
    ReachableIsSound(s);
    L.SettledAtMostOnce(s.ledger, t, t');
  }

  // ----- holds, offers and bids -----

  /** An offer or a bid, by where it stands, whose hold is this one. */
  predicate Backs(s: State, place: Origin, h: HoldId) {
    OriginPoints(place, h, s.listings, s.sales)
  }

  predicate SameOwnerAndAmount(s: State, place: Origin, h: HoldId)
    requires Backs(s, place, h) && h in s.ledger.holds
  {
    var hold := s.ledger.holds[h];
    match place
    case OfferOrigin(slot) =>
      var offer := s.listings[slot.parent].offers[slot.position];
      hold.owner == offer.lender && hold.amount == offer.principal
    case BidOrigin(slot) =>
      var bid := s.sales[slot.parent].bids[slot.position];
      hold.owner == bid.bidder && hold.amount == bid.amount
  }

  lemma BackedPlace(s: State, place: Origin, h: HoldId)
    requires Inv(s) && Backs(s, place, h)
    ensures h in s.ledger.holds && s.origins[h] == place && SameOwnerAndAmount(s, place, h)
  {
    match place
    case OfferOrigin(slot) =>
      assert OfferSound(s.listings[slot.parent].offers[slot.position], Slot(slot.parent, slot.position),
                        s.offerSlots, s.ledger.holds, s.origins, s.now);
    case BidOrigin(slot) =>
      assert BidSound(s.sales[slot.parent], Slot(slot.parent, slot.position), s.bidSlots, s.ledger.holds, s.origins);
  }

  /** In every reachable state every hold backs exactly one offer or bid, with the same owner and amount. */
  lemma HoldBacksExactlyOne(s: State, h: HoldId) returns (place: Origin)
    requires Reachable(s) && h in s.ledger.holds
    ensures Backs(s, place, h) && SameOwnerAndAmount(s, place, h)
    ensures forall other :: Backs(s, other, h) ==> other == place
  {
    ReachableIsSound(s);
    place := s.origins[h];
    BackedPlace(s, place, h);
    forall other | Backs(s, other, h) ensures other == place {
      BackedPlace(s, other, h);
    }
  }

  /** In every reachable state an offer's status and its hold's agree. */
  lemma OfferAndHoldAgree(s: State, l: ListingId, i: nat)
    requires Reachable(s) && l in s.listings && i < |s.listings[l].offers|
    ensures var offer := s.listings[l].offers[i];
            && offer.hold in s.ledger.holds
            && var status := s.ledger.holds[offer.hold].status;
               && (offer.status == OfferAccepted <==> status == L.HoldReleased)
               && (offer.status == OfferWithdrawn ==> status == L.HoldRefunded)
               && (offer.status == OfferPending && s.now <= offer.expiresAt ==> status == L.HoldHeld)
               && offer.status != OfferExpired
  {
    ReachableIsSound(s);
    assert OfferSound(s.listings[l].offers[i], Slot(l, i), s.offerSlots, s.ledger.holds, s.origins, s.now);
  }

  // ----- acceptance -----

  /** An offer the named acceptance can take, as the offer, the receipt and the parameters show beforehand. The fee is
      the platform's share of the principal rounded down, and must leave something on both sides. */
  predicate Acceptable(offer: Offer, receipt: Receipt, c: Command, now: Instant)
    requires c.AcceptOffer?
  {
    var fee := offer.principal * c.parameters.originationFeeBasisPoints / BasisPointScale;
    && offer.id == c.offerId && offer.status == OfferPending && now <= offer.expiresAt && offer.durationMs > 0
    && receipt.category in c.parameters.loanToValueCaps
    && offer.principal * BasisPointScale <= receipt.appraisedValue * c.parameters.loanToValueCaps[receipt.category]
    && 0 < fee < offer.principal
  }

  /** Every condition of a successful acceptance, each one checkable beforehand. */
  ghost predicate AcceptanceConditions(s: State, c: Command)
    requires c.AcceptOffer?
  {
    && !s.paused
    && c.listingId in s.listings && s.listings[c.listingId].receipt in s.receipts
    && var listing := s.listings[c.listingId];
       var receipt := s.receipts[listing.receipt];
       && listing.status == ListingActive && s.now <= listing.expiresAt && c.requestedBy == listing.borrower
       && receipt.status == InVault
       && (exists i :: 0 <= i < |listing.offers| && Acceptable(listing.offers[i], receipt, c, s.now))
       && c.parameters.gracePeriodMs >= 0 && c.parameters.liquidationFeeBasisPoints <= BasisPointScale
       && c.loanId !in s.loans
  }

  /** The same in terms of the aggregate's answer. */
  ghost predicate AggregateAccepts(s: State, c: Command)
    requires c.AcceptOffer?
  {
    && !s.paused
    && c.listingId in s.listings && s.listings[c.listingId].receipt in s.receipts
    && var listing := s.listings[c.listingId];
       var receipt := s.receipts[listing.receipt];
       var answer := Marketplace.AcceptOffer(listing, c.offerId, c.requestedBy, c.parameters, s.now);
       && answer.Ok?
       && WithinLoanToValue(answer.value.winningOffer.principal, receipt.appraisedValue, receipt.category,
                            c.parameters).Ok?
       && answer.value.originationFee > 0 && answer.value.disbursement > 0
       && receipt.status == InVault
       && answer.value.winningOffer.durationMs > 0 && c.parameters.gracePeriodMs >= 0
       && c.parameters.liquidationFeeBasisPoints <= BasisPointScale
       && c.loanId !in s.loans
  }

  lemma BooksAreWellFormed(s: State, l: ListingId)
    requires Inv(s) && l in s.listings
    ensures DistinctIds(s.listings[l].offers)
    ensures forall i :: 0 <= i < |s.listings[l].offers| ==> s.listings[l].offers[i].principal > 0
  {
    var offers := s.listings[l].offers;
    forall i | 0 <= i < |offers|
      ensures offers[i].principal > 0 && offers[i].id in s.offerSlots && s.offerSlots[offers[i].id] == Slot(l, i)
    {
      assert OfferSound(offers[i], Slot(l, i), s.offerSlots, s.ledger.holds, s.origins, s.now);
    }
  }

  lemma ConditionsAreTheAggregates(s: State, c: Command)
    requires c.AcceptOffer?
    requires c.listingId in s.listings ==>
               && DistinctIds(s.listings[c.listingId].offers)
               && forall i :: 0 <= i < |s.listings[c.listingId].offers| ==>
                    s.listings[c.listingId].offers[i].principal > 0
    ensures AggregateAccepts(s, c) <==> AcceptanceConditions(s, c)
  {
    if c.listingId in s.listings && s.listings[c.listingId].receipt in s.receipts {
      var listing := s.listings[c.listingId];
      var receipt := s.receipts[listing.receipt];
      var found := FindOffer(listing.offers, c.offerId);
      if found.Some? {
        var offer := listing.offers[found.value];
        AcceptOfferExactlyWhen(listing, found.value, c.requestedBy, c.parameters, s.now);
        WithinCapExactlyWhen(offer.principal, receipt.appraisedValue, receipt.category, c.parameters);
        forall i | 0 <= i < |listing.offers| && Acceptable(listing.offers[i], receipt, c, s.now)
          ensures i == found.value {}
      }
    }
  }

  lemma OriginationReleases(s: State, h: HoldId, listing: Listing, accepted: AcceptedOffer)
    requires h in s.ledger.holds && s.ledger.holds[h].status == L.HoldHeld && s.ledger.holds[h].amount > 0
    requires accepted.disbursement + accepted.originationFee == s.ledger.holds[h].amount
    ensures var released := L.Release(s.ledger, h, OriginationLines(listing, accepted), L.OriginateLoanKind);
            && (released.Ok? <==> accepted.originationFee > 0 && accepted.disbursement > 0)
            && (released.Err? ==> released.error == NonPositiveEntryAmount)
  {
    var lines := OriginationLines(listing, accepted);
    var row := s.ledger.holds[h];
    assert lines == ([] + [lines[0]]) + [lines[1]];
    TotalAppend([], lines[0]);
    TotalAppend([] + [lines[0]], lines[1]);
    ReleaseBuildable(row.owner, row.amount, lines);
    ReleasePositive(row.owner, row.amount, lines);
    CreditsShape(lines);
    assert AllPositive(lines) <==> lines[0].amount > 0 && lines[1].amount > 0;
  }

  /** On a reachable state an acceptance succeeds exactly when those conditions hold. The settlement errors
      that say the books and the ledger disagree are never answered; an origination fee or a disbursement
      that rounds to nothing is refused. */
  lemma AcceptanceSucceedsExactlyWhen(s: State, c: Command)
    requires Reachable(s) && c.AcceptOffer?
    ensures Step(s, c).result.Ok? <==> AcceptanceConditions(s, c)
    ensures Step(s, c).result.Err? ==>
              && Step(s, c).state == s
              && Step(s, c).result.error !in {DistributionMismatch, FundsHoldNotHeld, FundsHoldMissing,
                                              UnbalancedTransaction}
  {
    ReachableIsSound(s);
    AcceptanceAnswers(s, c);
    StepDispatches(s, c);
    if c.listingId in s.listings {
      BooksAreWellFormed(s, c.listingId);
    }
    ConditionsAreTheAggregates(s, c);
  }

  lemma AcceptanceAnswers(s: State, c: Command)
    requires L.SettlementsMatch(s.ledger.journal, s.ledger.holds)
    requires OffersSound(s.listings, s.offerSlots, s.ledger.holds, s.origins, s.now)
    requires c.AcceptOffer?
    ensures AcceptOfferStep(s, c).result.Ok? <==> AggregateAccepts(s, c)
    ensures AcceptOfferStep(s, c).result.Err? ==>
              && AcceptOfferStep(s, c).state == s
              && AcceptOfferStep(s, c).result.error !in {DistributionMismatch, FundsHoldNotHeld, FundsHoldMissing,
                                                         UnbalancedTransaction}
  {
    if !s.paused && c.listingId in s.listings && s.listings[c.listingId].receipt in s.receipts {
      var listing := s.listings[c.listingId];
      var answer := Marketplace.AcceptOffer(listing, c.offerId, c.requestedBy, c.parameters, s.now);
      if answer.Ok? {
        var p := FindOffer(listing.offers, c.offerId).value;
        PendingIsHeld(s, c.listingId, p);
        OriginationReleases(s, listing.offers[p].hold, listing, answer.value);
      }
    }
  }

  /** The borrower an acceptance pays is the receipt's holder, although the acceptance never compares them:
      at the instant of acceptance, and of every other command, a live listing's borrower holds its receipt. */
  lemma AcceptancePaysTheHolder(s: State, c: Command)
    requires Reachable(s) && c.AcceptOffer? && Step(s, c).result.Ok?
    ensures var listing := s.listings[c.listingId];
            && s.receipts[listing.receipt].holder == listing.borrower
            && Step(s, c).state.receipts[listing.receipt].holder == listing.borrower
            && Step(s, c).state.receipts[listing.receipt].encumberedBy == Some(c.loanId)
  {
    ReachableIsSound(s);
    var p := AcceptanceIsWhole(s, c);
    assert ListingSound(s.listings[c.listingId], s.receipts);
  }

  /** In every reachable state a receipt has at most one draft or active listing, and a pledged one has none. */
  lemma OneLiveListingPerReceipt(s: State, l: ListingId, m: ListingId)
    requires Reachable(s) && l in s.listings && m in s.listings
    requires LiveListing(s.listings[l]) && LiveListing(s.listings[m]) && s.listings[l].receipt == s.listings[m].receipt
    ensures l == m
    ensures s.listings[l].receipt in s.receipts && s.receipts[s.listings[l].receipt].status != Encumbered
    ensures s.receipts[s.listings[l].receipt].holder == s.listings[l].borrower
  {
    ReachableIsSound(s);
    assert ListingSound(s.listings[l], s.receipts);
  }

  // ----- reclaiming -----

  /** No offer money is trapped: once an offer has expired, however the clock got there and paused or not,
      its lender's reclaim of a held hold succeeds, credits exactly the principal, moves nothing else, and
      repeated names the same transaction and changes nothing. */
  lemma NoOfferMoneyTrapped(s: State, l: ListingId, i: nat)
    requires Reachable(s) && l in s.listings && i < |s.listings[l].offers|
    requires var offer := s.listings[l].offers[i];
             offer.hold in s.ledger.holds && s.ledger.holds[offer.hold].status == L.HoldHeld && s.now > offer.expiresAt
    ensures var offer := s.listings[l].offers[i];
            var reclaim := ReclaimHold(offer.id, offer.lender);
            var s' := Step(s, reclaim).state;
            && Step(s, reclaim).result.Ok?
            && s' == s.(ledger := s'.ledger)
            && L.Balance(s'.ledger.journal, UserAvailable(offer.lender))
                 == L.Balance(s.ledger.journal, UserAvailable(offer.lender)) + offer.principal
            && L.Balance(s'.ledger.journal, UserHeld(offer.lender))
                 == L.Balance(s.ledger.journal, UserHeld(offer.lender)) - offer.principal
            && (forall account :: account != UserAvailable(offer.lender) && account != UserHeld(offer.lender) ==>
                  L.Balance(s'.ledger.journal, account) == L.Balance(s.ledger.journal, account))
            && Step(s', reclaim) == Outcome(s', Step(s, reclaim).result)
  {
    ReachableIsSound(s);
    var offer := s.listings[l].offers[i];
    OfferIsFound(s, l, i);
    L.RefundReturnsTheMoney(s.ledger, offer.hold);
    var posted := L.Refund(s.ledger, offer.hold).value;
    ReclaimHoldRuns(s, l, i, posted);
    ReclaimHoldRuns(s.(ledger := posted.ledger), l, i, posted);
  }

  lemma ReclaimHoldRuns(s: State, l: ListingId, i: nat, posted: L.Posted)
    requires l in s.listings && i < |s.listings[l].offers|
    requires var offer := s.listings[l].offers[i];
             && offer.id in s.offerSlots && s.offerSlots[offer.id].parent == l
             && FindOffer(s.listings[l].offers, offer.id) == Some(i)
             && HoldReclaimable(offer, s.now)
             && L.Refund(s.ledger, offer.hold) == Ok(posted)
    ensures var offer := s.listings[l].offers[i];
            Step(s, ReclaimHold(offer.id, offer.lender)) == Outcome(s.(ledger := posted.ledger), Ok(posted.reference))
  {
  }

  lemma OfferIsFound(s: State, l: ListingId, i: nat)
    requires OffersSound(s.listings, s.offerSlots, s.ledger.holds, s.origins, s.now)
    requires l in s.listings && i < |s.listings[l].offers|
    ensures var offer := s.listings[l].offers[i];
            && offer.id in s.offerSlots && s.offerSlots[offer.id].parent == l
            && FindOffer(s.listings[l].offers, offer.id) == Some(i)
            && offer.hold in s.ledger.holds
            && s.ledger.holds[offer.hold].owner == offer.lender && s.ledger.holds[offer.hold].amount == offer.principal
            && OfferStatusMatches(offer, s.ledger.holds[offer.hold].status, s.now)
  {
    var offers := s.listings[l].offers;
    assert OfferSound(offers[i], Slot(l, i), s.offerSlots, s.ledger.holds, s.origins, s.now);
    FoundOfferIsUnique(s, l, FindOffer(offers, offers[i].id).value, i);
  }

  // ----- the auction -----

  /** In every reachable state a sale's book rises strictly from the reserve up, any reloading of it names
      the same high bid, and while the sale runs that bid's money is held. */
  lemma AuctionBook(s: State, x: SaleId, reloaded: seq<Bid>)
    requires Reachable(s) && x in s.sales && s.sales[x].bids != []
    requires multiset(reloaded) == multiset(s.sales[x].bids)
    ensures var sale := s.sales[x];
            var last := sale.bids[|sale.bids| - 1];
            && StrictlyRising(sale.bids)
            && (forall j :: 0 <= j < |sale.bids| ==> sale.bids[j].amount >= sale.reservePrice)
            && HighestBid(reloaded) == Some(last)
            && last.hold in s.ledger.holds
            && s.ledger.holds[last.hold].status == (if sale.status == SaleSettled then L.HoldReleased else L.HoldHeld)
            && (sale.status == SaleSettled <==> sale.winningBid == Some(last.id))
  {
    ReachableSale(s, x);
    SaleBook(s.sales[x], s.loans, s.now, reloaded);
    BidIsFound(s, x, |s.sales[x].bids| - 1);
  }

  lemma ReachableSale(s: State, x: SaleId)
    requires Reachable(s) && x in s.sales
    ensures SaleSound(s.sales[x], s.loans, s.now) && BidsSound(s.sales, s.bidSlots, s.ledger.holds, s.origins)
  {
    ReachableIsSound(s);
  }

  lemma SaleBook(sale: Sale, loans: map<LoanId, Loan>, now: Instant, reloaded: seq<Bid>)
    requires SaleSound(sale, loans, now) && sale.bids != [] && multiset(reloaded) == multiset(sale.bids)
    ensures HighestBid(reloaded) == Some(sale.bids[|sale.bids| - 1])
    ensures sale.status == SaleSettled <==> sale.winningBid == Some(sale.bids[|sale.bids| - 1].id)
  {
    HighestIsLast(sale.bids);
    HighestIgnoresOrder(sale.bids, reloaded);
  }

  /** A bidder's reclaim of the standing or winning bid is refused. */
  lemma HighBidStays(s: State, x: SaleId, p: nat)
    requires Reachable(s) && x in s.sales && p + 1 == |s.sales[x].bids|
    ensures var bid := s.sales[x].bids[p];
            Step(s, ReclaimBid(x, bid.id, bid.bidder)) == Outcome(s, Err(HoldNotReclaimable))
  {
    ReachableIsSound(s);
    BidIsFound(s, x, p);
    ReclaimableIsBeaten(s, x, p);
    ReclaimBidRefused(s, x, p);
  }

  lemma ReclaimBidRefused(s: State, x: SaleId, p: nat)
    requires x in s.sales && p < |s.sales[x].bids|
    requires FindBid(s.sales[x].bids, s.sales[x].bids[p].id) == Some(p)
    requires !IsReclaimable(HighestBid(s.sales[x].bids), s.sales[x].winningBid, s.sales[x].bids[p])
    ensures var bid := s.sales[x].bids[p];
            Step(s, ReclaimBid(x, bid.id, bid.bidder)) == Outcome(s, Err(HoldNotReclaimable))
  {
  }

  /** A bidder's reclaim of any other bid succeeds. On a held hold it credits exactly the bid; a repeat
      names the same transaction and moves nothing. */
  lemma BeatenBidIsReclaimable(s: State, x: SaleId, p: nat)
    requires Reachable(s) && x in s.sales && p + 1 < |s.sales[x].bids|
    ensures s.sales[x].bids[p].hold in s.ledger.holds
    ensures var bid := s.sales[x].bids[p];
            var reclaim := ReclaimBid(x, bid.id, bid.bidder);
            var s' := Step(s, reclaim).state;
            && Step(s, reclaim).result.Ok?
            && Step(s', reclaim) == Outcome(s', Step(s, reclaim).result)
            && L.Balance(s'.ledger.journal, UserAvailable(bid.bidder))
            == L.Balance(s.ledger.journal, UserAvailable(bid.bidder))
            + (if s.ledger.holds[bid.hold].status == L.HoldHeld then bid.amount else 0)
  {
    ReachableIsSound(s);
    BidIsFound(s, x, p);
    ReclaimableIsBeaten(s, x, p);
    RefundAnswers(s.ledger, s.sales[x].bids[p].hold);
    var posted := L.Refund(s.ledger, s.sales[x].bids[p].hold).value;
    ReclaimBidRuns(s, x, p, posted);
    ReclaimBidRuns(s.(ledger := posted.ledger), x, p, posted);
  }

  lemma ReclaimBidRuns(s: State, x: SaleId, p: nat, posted: L.Posted)
    requires x in s.sales && p < |s.sales[x].bids|
    requires FindBid(s.sales[x].bids, s.sales[x].bids[p].id) == Some(p)
    requires IsReclaimable(HighestBid(s.sales[x].bids), s.sales[x].winningBid, s.sales[x].bids[p])
    requires L.Refund(s.ledger, s.sales[x].bids[p].hold) == Ok(posted)
    ensures var bid := s.sales[x].bids[p];
            Step(s, ReclaimBid(x, bid.id, bid.bidder)) == Outcome(s.(ledger := posted.ledger), Ok(posted.reference))
  {
  }

  lemma BidIsFound(s: State, x: SaleId, p: nat)
    requires BidsSound(s.sales, s.bidSlots, s.ledger.holds, s.origins)
    requires x in s.sales && p < |s.sales[x].bids|
    ensures var bid := s.sales[x].bids[p];
            && FindBid(s.sales[x].bids, bid.id) == Some(p)
            && bid.hold in s.ledger.holds
            && s.ledger.holds[bid.hold].owner == bid.bidder && s.ledger.holds[bid.hold].amount == bid.amount
            && BidStatusMatches(s.sales[x], p, s.ledger.holds[bid.hold].status)
  {
    var bids := s.sales[x].bids;
    assert BidSound(s.sales[x], Slot(x, p), s.bidSlots, s.ledger.holds, s.origins);
    BidIsUnique(s, x, FindBid(bids, bids[p].id).value, p);
  }

  /** A hold that is held or already refunded can be refunded, once for money and again for nothing. */
  lemma RefundAnswers(ledger: L.Ledger, h: HoldId)
    requires L.Sound(ledger) && h in ledger.holds && ledger.holds[h].status != L.HoldReleased
    ensures L.Refund(ledger, h).Ok?
    ensures var row := ledger.holds[h];
            var after := L.Refund(ledger, h).value.ledger;
            && L.Refund(after, h) == Ok(L.Posted(after, L.Refund(ledger, h).value.reference))
            && L.Balance(after.journal, UserAvailable(row.owner))
            == L.Balance(ledger.journal, UserAvailable(row.owner))
            + (if row.status == L.HoldHeld then row.amount else 0)
  {
    if ledger.holds[h].status == L.HoldHeld {
      L.RefundReturnsTheMoney(ledger, h);
    }
  }
}
