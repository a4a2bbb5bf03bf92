/** What every reachable state of the protocol keeps. Each clause speaks only of the tables it needs. */
module Invariant {
  import opened Shared
  import opened CustodyReceipts
  import opened Loans
  import opened Marketplace
  import opened Liquidations
  import opened Protocol
  import L = Ledger

  type Holds = map<HoldId, L.FundsHold>

  // ----- holds back offers and bids -----

  predicate OfferStatusMatches(offer: Offer, status: L.HoldStatus, now: Instant) {
    match offer.status
    case OfferPending => status == L.HoldHeld || (status == L.HoldRefunded && now > offer.expiresAt)
    case OfferAccepted => status == L.HoldReleased
    case OfferWithdrawn => status == L.HoldRefunded
    case OfferSuperseded => status != L.HoldReleased
    case OfferExpired => false
  }

  predicate OfferSound(offer: Offer, slot: Slot, offerSlots: map<OfferId, Slot>, holds: Holds,
                       origins: map<HoldId, Origin>, now: Instant) {
    && offer.id in offerSlots && offerSlots[offer.id] == slot
    && offer.hold in origins && origins[offer.hold] == OfferOrigin(slot)
    && offer.hold in holds
    && holds[offer.hold].owner == offer.lender
    && holds[offer.hold].amount == offer.principal
    && OfferStatusMatches(offer, holds[offer.hold].status, now)
  }

  ghost predicate OffersSound(listings: map<ListingId, Listing>, offerSlots: map<OfferId, Slot>, holds: Holds,
                              origins: map<HoldId, Origin>, now: Instant) {
    forall l, i :: l in listings && 0 <= i < |listings[l].offers| ==>
      OfferSound(listings[l].offers[i], Slot(l, i), offerSlots, holds, origins, now)
  }

  /** The last bid is the high bid: in play while the sale runs, spent once it settles. */
  predicate BidStatusMatches(sale: Sale, position: nat, status: L.HoldStatus) {
    if position + 1 == |sale.bids| then
      status == if sale.status == SaleSettled then L.HoldReleased else L.HoldHeld
    else status != L.HoldReleased
  }

  predicate BidSound(sale: Sale, slot: Slot, bidSlots: map<BidId, Slot>, holds: Holds, origins: map<HoldId, Origin>)
    requires slot.position < |sale.bids|
  {
    var bid := sale.bids[slot.position];
    && bid.id in bidSlots && bidSlots[bid.id] == slot
    && bid.hold in origins && origins[bid.hold] == BidOrigin(slot)
    && bid.hold in holds
    && holds[bid.hold].owner == bid.bidder
    && holds[bid.hold].amount == bid.amount
    && BidStatusMatches(sale, slot.position, holds[bid.hold].status)
  }

  ghost predicate BidsSound(sales: map<SaleId, Sale>, bidSlots: map<BidId, Slot>, holds: Holds,
                            origins: map<HoldId, Origin>) {
    forall x, j :: x in sales && 0 <= j < |sales[x].bids| ==> BidSound(sales[x], Slot(x, j), bidSlots, holds, origins)
  }

  predicate OriginPoints(origin: Origin, holdId: HoldId, listings: map<ListingId, Listing>, sales: map<SaleId, Sale>) {
    match origin
    case OfferOrigin(slot) =>
      slot.parent in listings && slot.position < |listings[slot.parent].offers|
      && listings[slot.parent].offers[slot.position].hold == holdId
    case BidOrigin(slot) =>
      slot.parent in sales && slot.position < |sales[slot.parent].bids|
      && sales[slot.parent].bids[slot.position].hold == holdId
  }

  ghost predicate OriginsSound(origins: map<HoldId, Origin>, holds: Holds, listings: map<ListingId, Listing>,
                               sales: map<SaleId, Sale>) {
    && origins.Keys == holds.Keys
    && forall h :: h in origins ==> OriginPoints(origins[h], h, listings, sales)
  }

  // ----- loans, receipts, listings and sales -----

  predicate LoanSound(loan: Loan, now: Instant) {
    && Constructible(loan)
    && loan.startedAt <= now
    && (loan.defaultedAt.Some? ==> loan.graceEndsAt < loan.defaultedAt.value <= now)
  }

  ghost predicate LoansSound(loans: map<LoanId, Loan>, now: Instant) {
    forall k :: k in loans ==> LoanSound(loans[k], now)
  }

  /** An encumbered receipt names a loan on it that is not over. */
  predicate PledgeSound(receipt: Receipt, receiptId: ReceiptId, loans: map<LoanId, Loan>) {
    && Consistent(receipt)
    && (receipt.encumberedBy.Some? ==>
          && receipt.encumberedBy.value in loans
          && loans[receipt.encumberedBy.value].receipt == receiptId
          && LiveLoan(loans[receipt.encumberedBy.value]))
  }

  ghost predicate CollateralSound(receipts: map<ReceiptId, Receipt>, loans: map<LoanId, Loan>) {
    && (forall r :: r in receipts ==> PledgeSound(receipts[r], r, loans))
    && (forall k :: k in loans ==> loans[k].receipt in receipts)
  }

  predicate ListingSound(listing: Listing, receipts: map<ReceiptId, Receipt>) {
    && listing.receipt in receipts
    && (LiveListing(listing) ==>
          && receipts[listing.receipt].holder == listing.borrower
          && receipts[listing.receipt].status != Encumbered)
  }

  ghost predicate ListingsSound(listings: map<ListingId, Listing>, receipts: map<ReceiptId, Receipt>) {
    && (forall l :: l in listings ==> ListingSound(listings[l], receipts))
    && (forall l, m ::
          (l in listings && m in listings && LiveListing(listings[l]) && LiveListing(listings[m])
            && listings[l].receipt == listings[m].receipt) ==> l == m)
  }

  ghost predicate SaleSound(sale: Sale, loans: map<LoanId, Loan>, now: Instant) {
    && sale.loan in loans
    && sale.receipt == loans[sale.loan].receipt
    && sale.status != SaleCancelled
    && loans[sale.loan].status == (if sale.status == SaleSettled then LoanLiquidated else LoanDefaulted)
    && (sale.status == SaleScheduled <==> sale.opensAt == None)
    && (sale.status == SaleScheduled <==> sale.closesAt == None)
    && (sale.status == SaleScheduled ==> sale.bids == [])
    && (sale.opensAt.Some? ==>
          loans[sale.loan].defaultedAt.Some? && loans[sale.loan].defaultedAt.value <= sale.opensAt.value <= now)
    && (sale.status == SaleSettled ==> sale.bids != [])
    && sale.winningBid == (if sale.status == SaleSettled then Some(sale.bids[|sale.bids| - 1].id) else None)
    && StrictlyRising(sale.bids)
    && (forall j :: 0 <= j < |sale.bids| ==> sale.bids[j].amount >= sale.reservePrice)
  }

  ghost predicate SalesSound(sales: map<SaleId, Sale>, loans: map<LoanId, Loan>, now: Instant) {
    && (forall x :: x in sales ==> SaleSound(sales[x], loans, now))
    && (forall x, y :: x in sales && y in sales && sales[x].loan == sales[y].loan ==> x == y)
  }

  ghost predicate Inv(s: State) {
    && L.Sound(s.ledger)
    && OffersSound(s.listings, s.offerSlots, s.ledger.holds, s.origins, s.now)
    && BidsSound(s.sales, s.bidSlots, s.ledger.holds, s.origins)
    && OriginsSound(s.origins, s.ledger.holds, s.listings, s.sales)
    && LoansSound(s.loans, s.now)
    && CollateralSound(s.receipts, s.loans)
    && ListingsSound(s.listings, s.receipts)
    && SalesSound(s.sales, s.loans, s.now)
  }
}
