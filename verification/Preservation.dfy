/** Every command keeps the invariant. */
module Preservation {
  import opened Shared
  import opened Distributions
  import opened CustodyReceipts
  import opened Loans
  import opened Marketplace
  import opened Liquidations
  import opened Protocol
  import opened Frames
  import opened Invariant
  import opened HoldEffects
  import L = Ledger

  /** The three clauses that tie holds to the books. */
  ghost predicate BooksSound(s: State) {
    && OffersSound(s.listings, s.offerSlots, s.ledger.holds, s.origins, s.now)
    && BidsSound(s.sales, s.bidSlots, s.ledger.holds, s.origins)
    && OriginsSound(s.origins, s.ledger.holds, s.listings, s.sales)
  }

  lemma InitialHolds()
    ensures Inv(Initial)
  {
    L.EmptyIsSound();
  }

  // ----- clock, wallet and custody -----

  lemma OffersAge(listings: map<ListingId, Listing>, offerSlots: map<OfferId, Slot>, holds: Holds,
                  origins: map<HoldId, Origin>, now: Instant, later: Instant)
    requires OffersSound(listings, offerSlots, holds, origins, now) && now <= later
    ensures OffersSound(listings, offerSlots, holds, origins, later)
  {
    forall l, i | l in listings && 0 <= i < |listings[l].offers|
      ensures OfferSound(listings[l].offers[i], Slot(l, i), offerSlots, holds, origins, later)
    {
      assert OfferSound(listings[l].offers[i], Slot(l, i), offerSlots, holds, origins, now);
    }
  }

  lemma LoansAge(loans: map<LoanId, Loan>, now: Instant, later: Instant)
    requires LoansSound(loans, now) && now <= later
    ensures LoansSound(loans, later)
  {
    forall k | k in loans ensures LoanSound(loans[k], later) {
      assert LoanSound(loans[k], now);
    }
  }

  lemma SalesAge(sales: map<SaleId, Sale>, loans: map<LoanId, Loan>, now: Instant, later: Instant)
    requires SalesSound(sales, loans, now) && now <= later
    ensures SalesSound(sales, loans, later)
  {
    forall x | x in sales ensures SaleSound(sales[x], loans, later) {
      assert SaleSound(sales[x], loans, now);
    }
  }

  lemma TickKeeps(s: State, c: Command)
    requires Inv(s) && c.Tick?
    ensures Inv(TickStep(s, c).state)
  {
    var later := TickStep(s, c).state.now;
    OffersAge(s.listings, s.offerSlots, s.ledger.holds, s.origins, s.now, later);
    LoansAge(s.loans, s.now, later);
    SalesAge(s.sales, s.loans, s.now, later);
  }

  lemma DepositKeeps(s: State, c: Command)
    requires Inv(s) && c.Deposit?
    ensures Inv(DepositStep(s, c).state)
  {
    if L.Transfer(s.ledger, PlatformFloat, User(c.user), c.amount, 0).Ok? {
      L.TransferKeepsSound(s.ledger, PlatformFloat, User(c.user), c.amount, 0);
    }
  }

  lemma WithdrawKeeps(s: State, c: Command)
    requires Inv(s) && c.Withdraw?
    ensures Inv(WithdrawStep(s, c).state)
  {
    if L.Transfer(s.ledger, User(c.user), PlatformFloat, c.amount, 0).Ok? {
      L.TransferKeepsSound(s.ledger, User(c.user), PlatformFloat, c.amount, 0);
    }
  }

  lemma IssueReceiptKeeps(s: State, c: Command)
    requires Inv(s) && c.IssueReceipt?
    ensures Inv(IssueReceiptStep(s, c).state)
  {
    var s' := IssueReceiptStep(s, c).state;
    if IssueReceiptStep(s, c).result.Ok? {
      ReceiptsGrow(s.listings, s.receipts, s'.receipts);
      PledgesGrow(s.receipts, s.loans, c.receiptId, s'.receipts[c.receiptId]);
    }
  }

  lemma PledgesGrow(receipts: map<ReceiptId, Receipt>, loans: map<LoanId, Loan>, r: ReceiptId, issued: Receipt)
    requires CollateralSound(receipts, loans)
    requires r !in receipts && Consistent(issued) && issued.encumberedBy.None?
    ensures CollateralSound(receipts[r := issued], loans)
  {
    var receipts' := receipts[r := issued];
    forall q | q in receipts' ensures PledgeSound(receipts'[q], q, loans) {
      assert q != r ==> PledgeSound(receipts[q], q, loans);
    }
  }

  lemma ReceiptsGrow(listings: map<ListingId, Listing>, receipts: map<ReceiptId, Receipt>,
                     receipts': map<ReceiptId, Receipt>)
    requires ListingsSound(listings, receipts)
    requires forall r :: r in receipts ==> r in receipts' && receipts'[r] == receipts[r]
    ensures ListingsSound(listings, receipts')
  {
    forall l | l in listings ensures ListingSound(listings[l], receipts') {
      assert ListingSound(listings[l], receipts);
    }
  }

  /** A receipt event that leaves the holder alone and pledges nothing cannot hurt a listing. */
  lemma ReceiptFreed(listings: map<ListingId, Listing>, receipts: map<ReceiptId, Receipt>, r: ReceiptId, freed: Receipt)
    requires ListingsSound(listings, receipts)
    requires r in receipts && freed.holder == receipts[r].holder && freed.status != Encumbered
    ensures ListingsSound(listings, receipts[r := freed])
  {
    forall l | l in listings ensures ListingSound(listings[l], receipts[r := freed]) {
      assert ListingSound(listings[l], receipts);
    }
  }

  lemma PledgeReplaced(receipts: map<ReceiptId, Receipt>, loans: map<LoanId, Loan>, r: ReceiptId, freed: Receipt)
    requires CollateralSound(receipts, loans)
    requires r in receipts && Consistent(freed) && freed.encumberedBy.None?
    ensures CollateralSound(receipts[r := freed], loans)
  {
    var receipts' := receipts[r := freed];
    forall q | q in receipts' ensures PledgeSound(receipts'[q], q, loans) {
      assert PledgeSound(receipts[q], q, loans);
    }
  }

  lemma RequestRedemptionKeeps(s: State, c: Command)
    requires Inv(s) && c.RequestRedemption?
    ensures Inv(RequestRedemptionStep(s, c).state)
  {
    if RequestRedemptionStep(s, c).result.Ok? {
      var burned := Apply(s.receipts[c.receiptId], BurnForRedemption).value;
      assert PledgeSound(s.receipts[c.receiptId], c.receiptId, s.loans);
      ReceiptFreed(s.listings, s.receipts, c.receiptId, burned);
      PledgeReplaced(s.receipts, s.loans, c.receiptId, burned);
    }
  }

  // ----- listings without money -----

  /** Replacing a listing by one with the same book and parties keeps the books. */
  lemma BookKept(s: State, l: ListingId, listing: Listing)
    requires OffersSound(s.listings, s.offerSlots, s.ledger.holds, s.origins, s.now)
    requires OriginsSound(s.origins, s.ledger.holds, s.listings, s.sales)
    requires if l in s.listings then |listing.offers| == |s.listings[l].offers| else listing.offers == []
    requires forall i :: 0 <= i < |listing.offers| ==>
               || listing.offers[i] == s.listings[l].offers[i]
               || (s.listings[l].offers[i].status == OfferPending
                   && listing.offers[i] == s.listings[l].offers[i].(status := OfferSuperseded))
    ensures OffersSound(s.listings[l := listing], s.offerSlots, s.ledger.holds, s.origins, s.now)
    ensures OriginsSound(s.origins, s.ledger.holds, s.listings[l := listing], s.sales)
  {
    var listings' := s.listings[l := listing];
    forall m, i | m in listings' && 0 <= i < |listings'[m].offers|
      ensures OfferSound(listings'[m].offers[i], Slot(m, i), s.offerSlots, s.ledger.holds, s.origins, s.now)
    {
      assert OfferSound(s.listings[m].offers[i], Slot(m, i), s.offerSlots, s.ledger.holds, s.origins, s.now);
    }
    forall h | h in s.origins ensures OriginPoints(s.origins[h], h, listings', s.sales) {
      assert OriginPoints(s.origins[h], h, s.listings, s.sales);
    }
  }

  /** Changing a listing without bringing it to life keeps the listings sound. */
  lemma ListingReplaced(listings: map<ListingId, Listing>, receipts: map<ReceiptId, Receipt>, l: ListingId,
                        listing: Listing)
    requires ListingsSound(listings, receipts)
    requires l in listings && listing.receipt == listings[l].receipt && listing.borrower == listings[l].borrower
    requires LiveListing(listing) ==> LiveListing(listings[l])
    ensures ListingsSound(listings[l := listing], receipts)
  {
    var listings' := listings[l := listing];
    forall m | m in listings' ensures ListingSound(listings'[m], receipts) {
      assert ListingSound(listings[m], receipts);
    }
  }

  lemma CreateListingKeeps(s: State, c: Command)
    requires Inv(s) && c.CreateListing?
    ensures Inv(CreateListingStep(s, c).state)
  {
    var s' := CreateListingStep(s, c).state;
    if CreateListingStep(s, c).result.Ok? {
      BookKept(s, c.listingId, s'.listings[c.listingId]);
      forall l | l in s'.listings ensures ListingSound(s'.listings[l], s.receipts) {
        assert l in s.listings ==> ListingSound(s.listings[l], s.receipts);
      }
    }
  }

  lemma PublishListingKeeps(s: State, c: Command)
    requires Inv(s) && c.PublishListing?
    ensures Inv(PublishListingStep(s, c).state)
  {
    if PublishListingStep(s, c).result.Ok? {
      var listing := PublishListingStep(s, c).state.listings[c.listingId];
      BookKept(s, c.listingId, listing);
      ListingReplaced(s.listings, s.receipts, c.listingId, listing);
    }
  }

  lemma CancelListingKeeps(s: State, c: Command)
    requires Inv(s) && c.CancelListing?
    ensures Inv(CancelListingStep(s, c).state)
  {
    if CancelListingStep(s, c).result.Ok? {
      var listing := CancelListingStep(s, c).state.listings[c.listingId];
      BookKept(s, c.listingId, listing);
      ListingReplaced(s.listings, s.receipts, c.listingId, listing);
    }
  }

  // ----- offers -----

  lemma PlaceOfferKeepsBooks(s: State, c: Command)
    requires BooksSound(s) && c.PlaceOffer? && PlaceOfferStep(s, c).result.Ok?
    ensures BooksSound(PlaceOfferStep(s, c).state)
  {
    var offer := OfferOf(s, c, c.holdId);
    var hold := L.FundsHold(c.requestedBy, c.principal, L.HoldHeld, None);
    OfferAdded(s.listings, s.offerSlots, s.ledger.holds, s.origins, s.now, c.listingId, offer);
    OriginOfOffer(s.origins, s.ledger.holds, s.listings, s.sales, c.listingId, offer, hold);
    BidsIgnore(s.sales, s.bidSlots, s.ledger.holds, s.origins, c.holdId, hold,
               OfferOrigin(Slot(c.listingId, |s.listings[c.listingId].offers|)));
  }

  lemma PlaceOfferKeepsListings(s: State, c: Command)
    requires ListingsSound(s.listings, s.receipts) && c.PlaceOffer? && PlaceOfferStep(s, c).result.Ok?
    ensures ListingsSound(PlaceOfferStep(s, c).state.listings, s.receipts)
  {
    ListingReplaced(s.listings, s.receipts, c.listingId, PlaceOfferStep(s, c).state.listings[c.listingId]);
  }

  lemma PlaceOfferKeeps(s: State, c: Command)
    requires Inv(s) && c.PlaceOffer?
    ensures Inv(PlaceOfferStep(s, c).state)
  {
    if PlaceOfferStep(s, c).result.Ok? {
      L.HoldKeepsSound(s.ledger, c.requestedBy, c.principal, c.listingId, c.holdId);
      PlaceOfferKeepsBooks(s, c);
      PlaceOfferKeepsListings(s, c);
    } else {
      RefusedPlaceOffer(s, c);
    }
  }

  /** An offer found by its id is the only one of its listing with that id. */
  lemma FoundOfferIsUnique(s: State, l: ListingId, p: nat, i: nat)
    requires OffersSound(s.listings, s.offerSlots, s.ledger.holds, s.origins, s.now)
    requires l in s.listings && p < |s.listings[l].offers| && i < |s.listings[l].offers|
    requires s.listings[l].offers[p].id == s.listings[l].offers[i].id
    ensures p == i
  {
    assert OfferSound(s.listings[l].offers[p], Slot(l, p), s.offerSlots, s.ledger.holds, s.origins, s.now);
    assert OfferSound(s.listings[l].offers[i], Slot(l, i), s.offerSlots, s.ledger.holds, s.origins, s.now);
  }

  /** Refunding an offer's hold under a book whose entry for it fits a refund. */
  lemma OfferRefundKeepsBooks(s: State, l: ListingId, p: nat, listing': Listing)
    requires BooksSound(s)
    requires l in s.listings && p < |s.listings[l].offers| == |listing'.offers|
    requires L.Refund(s.ledger, s.listings[l].offers[p].hold).Ok?
    requires listing'.offers[p] == s.listings[l].offers[p].(status := listing'.offers[p].status)
    requires OfferStatusMatches(listing'.offers[p], L.HoldRefunded, s.now)
    requires forall i :: 0 <= i < |listing'.offers| && i != p ==> listing'.offers[i] == s.listings[l].offers[i]
    ensures BooksSound(s.(ledger := L.Refund(s.ledger, s.listings[l].offers[p].hold).value.ledger,
                          listings := s.listings[l := listing']))
  {
    var h := s.listings[l].offers[p].hold;
    var holds' := L.Refund(s.ledger, h).value.ledger.holds;
    assert OfferSound(s.listings[l].offers[p], Slot(l, p), s.offerSlots, s.ledger.holds, s.origins, s.now);
    assert forall i :: 0 <= i < |listing'.offers| ==> listing'.offers[i].hold == s.listings[l].offers[i].hold;
    OriginsSurvive(s.origins, s.ledger.holds, holds', s.listings, s.sales, l, listing');
    if s.ledger.holds[h].status == L.HoldHeld {
      OfferHoldSettles(s.listings, s.offerSlots, s.ledger.holds, s.origins, s.now, l, p, listing', L.HoldRefunded,
                       |s.ledger.journal|);
      OfferSettlementSparesBids(s, h, holds'[h]);
    } else {
      OfferBookRewritten(s, l, p, listing');
    }
  }

  lemma OfferSettlementSparesBids(s: State, h: HoldId, hold: L.FundsHold)
    requires BidsSound(s.sales, s.bidSlots, s.ledger.holds, s.origins)
    requires h in s.origins && s.origins[h].OfferOrigin?
    ensures BidsSound(s.sales, s.bidSlots, s.ledger.holds[h := hold], s.origins)
  {
    BidsIgnore(s.sales, s.bidSlots, s.ledger.holds, s.origins, h, hold, s.origins[h]);
    assert s.origins[h := s.origins[h]] == s.origins;
  }

  lemma BidSettlementSparesOffers(s: State, h: HoldId, hold: L.FundsHold)
    requires OffersSound(s.listings, s.offerSlots, s.ledger.holds, s.origins, s.now)
    requires h in s.origins && s.origins[h].BidOrigin?
    ensures OffersSound(s.listings, s.offerSlots, s.ledger.holds[h := hold], s.origins, s.now)
  {
    OffersIgnore(s.listings, s.offerSlots, s.ledger.holds, s.origins, s.now, h, hold, s.origins[h]);
    assert s.origins[h := s.origins[h]] == s.origins;
  }

  lemma OfferRefundKeeps(s: State, l: ListingId, p: nat, listing': Listing)
    requires Inv(s)
    requires l in s.listings && p < |s.listings[l].offers| == |listing'.offers|
    requires L.Refund(s.ledger, s.listings[l].offers[p].hold).Ok?
    requires listing' == s.listings[l].(offers := listing'.offers)
    requires listing'.offers[p] == s.listings[l].offers[p].(status := listing'.offers[p].status)
    requires OfferStatusMatches(listing'.offers[p], L.HoldRefunded, s.now)
    requires forall i :: 0 <= i < |listing'.offers| && i != p ==> listing'.offers[i] == s.listings[l].offers[i]
    ensures Inv(s.(ledger := L.Refund(s.ledger, s.listings[l].offers[p].hold).value.ledger,
                   listings := s.listings[l := listing']))
  {
    L.RefundKeepsSound(s.ledger, s.listings[l].offers[p].hold);
    ListingReplaced(s.listings, s.receipts, l, listing');
    OfferRefundKeepsBooks(s, l, p, listing');
  }

  lemma OfferBookRewritten(s: State, l: ListingId, p: nat, listing': Listing)
    requires OffersSound(s.listings, s.offerSlots, s.ledger.holds, s.origins, s.now)
    requires l in s.listings && p < |s.listings[l].offers| == |listing'.offers|
    requires s.listings[l].offers[p].hold in s.ledger.holds
    requires s.ledger.holds[s.listings[l].offers[p].hold].status == L.HoldRefunded
    requires listing'.offers[p] == s.listings[l].offers[p].(status := listing'.offers[p].status)
    requires OfferStatusMatches(listing'.offers[p], L.HoldRefunded, s.now)
    requires forall i :: 0 <= i < |listing'.offers| && i != p ==> listing'.offers[i] == s.listings[l].offers[i]
    ensures OffersSound(s.listings[l := listing'], s.offerSlots, s.ledger.holds, s.origins, s.now)
  {
    var listings' := s.listings[l := listing'];
    forall m, i | m in listings' && 0 <= i < |listings'[m].offers|
      ensures OfferSound(listings'[m].offers[i], Slot(m, i), s.offerSlots, s.ledger.holds, s.origins, s.now)
    {
      assert OfferSound(s.listings[m].offers[i], Slot(m, i), s.offerSlots, s.ledger.holds, s.origins, s.now);
      if m == l && i != p {
        assert listing'.offers[i] == s.listings[l].offers[i];
      }
    }
  }

  lemma OnlyFoundIsReplaced(s: State, l: ListingId, p: nat)
    requires OffersSound(s.listings, s.offerSlots, s.ledger.holds, s.origins, s.now)
    requires l in s.listings && p < |s.listings[l].offers|
    ensures forall i :: 0 <= i < |s.listings[l].offers| && i != p ==>
              s.listings[l].offers[i].id != s.listings[l].offers[p].id
  {
    forall i | 0 <= i < |s.listings[l].offers| && s.listings[l].offers[i].id == s.listings[l].offers[p].id
      ensures i == p
    {
      FoundOfferIsUnique(s, l, p, i);
    }
  }

  /** What a successful withdrawal writes. */
  lemma WithdrawalWrites(s: State, c: Command) returns (p: nat, listing': Listing)
    requires OffersSound(s.listings, s.offerSlots, s.ledger.holds, s.origins, s.now)
    requires c.WithdrawOffer? && WithdrawOfferStep(s, c).result.Ok?
    ensures c.listingId in s.listings && p < |s.listings[c.listingId].offers| == |listing'.offers|
    ensures listing' == s.listings[c.listingId].(offers := listing'.offers)
    ensures listing'.offers[p] == s.listings[c.listingId].offers[p].(status := OfferWithdrawn)
    ensures forall i :: 0 <= i < |listing'.offers| && i != p ==> listing'.offers[i] == s.listings[c.listingId].offers[i]
    ensures L.Refund(s.ledger, s.listings[c.listingId].offers[p].hold).Ok?
    ensures WithdrawOfferStep(s, c).state
         == s.(ledger := L.Refund(s.ledger, s.listings[c.listingId].offers[p].hold).value.ledger,
               listings := s.listings[c.listingId := listing'])
  {
    p := FindOffer(s.listings[c.listingId].offers, c.offerId).value;
    listing' := Marketplace.WithdrawOffer(s.listings[c.listingId], c.offerId, c.requestedBy, c.parameters,
                                          s.now).value.listing;
    OnlyFoundIsReplaced(s, c.listingId, p);
  }

  lemma WithdrawOfferKeeps(s: State, c: Command)
    requires Inv(s) && c.WithdrawOffer?
    ensures Inv(WithdrawOfferStep(s, c).state)
  {
    if WithdrawOfferStep(s, c).result.Ok? {
      var p, listing' := WithdrawalWrites(s, c);
      OfferRefundKeeps(s, c.listingId, p, listing');
    } else {
      RefusedWithdrawOffer(s, c);
    }
  }

  /** A new ledger under books that fit it. */
  lemma LedgerReplaced(s: State, ledger: L.Ledger)
    requires Inv(s) && L.Sound(ledger) && BooksSound(s.(ledger := ledger))
    ensures Inv(s.(ledger := ledger))
  {
  }

  lemma PlainRefundKeepsBooks(s: State, l: ListingId, p: nat)
    requires BooksSound(s)
    requires l in s.listings && p < |s.listings[l].offers| && HoldReclaimable(s.listings[l].offers[p], s.now)
    requires L.Refund(s.ledger, s.listings[l].offers[p].hold).Ok?
    ensures BooksSound(s.(ledger := L.Refund(s.ledger, s.listings[l].offers[p].hold).value.ledger))
  {
    ReclaimableFitsRefund(s, l, p);
    OfferRefundKeepsBooks(s, l, p, s.listings[l]);
    assert s.listings[l := s.listings[l]] == s.listings;
  }

  lemma PlainRefundKeeps(s: State, l: ListingId, p: nat)
    requires Inv(s)
    requires l in s.listings && p < |s.listings[l].offers| && HoldReclaimable(s.listings[l].offers[p], s.now)
    requires L.Refund(s.ledger, s.listings[l].offers[p].hold).Ok?
    ensures Inv(s.(ledger := L.Refund(s.ledger, s.listings[l].offers[p].hold).value.ledger))
  {
    L.RefundKeepsSound(s.ledger, s.listings[l].offers[p].hold);
    PlainRefundKeepsBooks(s, l, p);
    LedgerReplaced(s, L.Refund(s.ledger, s.listings[l].offers[p].hold).value.ledger);
  }

  lemma ReclaimHoldKeeps(s: State, c: Command)
    requires Inv(s) && c.ReclaimHold?
    ensures Inv(ReclaimHoldStep(s, c).state)
  {
    if ReclaimHoldStep(s, c).result.Ok? {
      var l := s.offerSlots[c.offerId].parent;
      PlainRefundKeeps(s, l, FindOffer(s.listings[l].offers, c.offerId).value);
    } else {
      RefusedReclaimHold(s, c);
    }
  }

  lemma ReclaimableFitsRefund(s: State, l: ListingId, p: nat)
    requires OffersSound(s.listings, s.offerSlots, s.ledger.holds, s.origins, s.now)
    requires l in s.listings && p < |s.listings[l].offers| && HoldReclaimable(s.listings[l].offers[p], s.now)
    ensures OfferStatusMatches(s.listings[l].offers[p], L.HoldRefunded, s.now)
  {
    assert OfferSound(s.listings[l].offers[p], Slot(l, p), s.offerSlots, s.ledger.holds, s.origins, s.now);
  }

  /** An offer that is pending and not expired still has its money held. */
  lemma PendingIsHeld(s: State, l: ListingId, p: nat)
    requires OffersSound(s.listings, s.offerSlots, s.ledger.holds, s.origins, s.now)
    requires l in s.listings && p < |s.listings[l].offers|
    requires s.listings[l].offers[p].status == OfferPending && s.now <= s.listings[l].offers[p].expiresAt
    ensures var offer := s.listings[l].offers[p];
            && offer.hold in s.ledger.holds
            && s.ledger.holds[offer.hold].owner == offer.lender
            && s.ledger.holds[offer.hold].amount == offer.principal
            && s.ledger.holds[offer.hold].status == L.HoldHeld
  {
    assert OfferSound(s.listings[l].offers[p], Slot(l, p), s.offerSlots, s.ledger.holds, s.origins, s.now);
  }

  /** Releasing a winner's hold under the book its acceptance writes. */
  lemma AcceptanceKeepsBooks(s: State, l: ListingId, p: nat, winner: Offer)
    requires BooksSound(s)
    requires l in s.listings && p < |s.listings[l].offers| && s.listings[l].offers[p].status == OfferPending
    requires winner == s.listings[l].offers[p].(status := OfferAccepted)
    requires winner.hold in s.ledger.holds
    ensures var listing' := s.listings[l].(status := ListingMatched,
                                           offers := AcceptAmong(s.listings[l].offers, winner));
            var holds' := L.Settled(s.ledger.holds, winner.hold, L.HoldReleased, |s.ledger.journal|);
            && OffersSound(s.listings[l := listing'], s.offerSlots, holds', s.origins, s.now)
            && BidsSound(s.sales, s.bidSlots, holds', s.origins)
            && OriginsSound(s.origins, holds', s.listings[l := listing'], s.sales)
  {
    var offers := s.listings[l].offers;
    var listing' := s.listings[l].(status := ListingMatched, offers := AcceptAmong(offers, winner));
    var holds' := L.Settled(s.ledger.holds, winner.hold, L.HoldReleased, |s.ledger.journal|);
    assert OfferSound(offers[p], Slot(l, p), s.offerSlots, s.ledger.holds, s.origins, s.now);
    OnlyFoundIsReplaced(s, l, p);
    OfferHoldSettles(s.listings, s.offerSlots, s.ledger.holds, s.origins, s.now, l, p, listing', L.HoldReleased,
                     |s.ledger.journal|);
    assert forall i :: 0 <= i < |offers| ==> listing'.offers[i].hold == offers[i].hold;
    OriginsSurvive(s.origins, s.ledger.holds, holds', s.listings, s.sales, l, listing');
    OfferSettlementSparesBids(s, winner.hold, holds'[winner.hold]);
  }

  /** What a successful acceptance of the offer at a position writes. */
  ghost predicate AcceptanceWrites(s: State, s': State, l: ListingId, p: nat, k: LoanId) {
    && l in s.listings && p < |s.listings[l].offers|
    && var listing := s.listings[l];
       var offer := listing.offers[p];
       var winner := offer.(status := OfferAccepted);
       && LiveListing(listing) && offer.status == OfferPending && winner.hold in s.ledger.holds
       && s'.ledger.holds == L.Settled(s.ledger.holds, winner.hold, L.HoldReleased, |s.ledger.journal|)
       && s'.listings
            == s.listings[l := listing.(status := ListingMatched, offers := AcceptAmong(listing.offers, winner))]
       && k !in s.loans && k in s'.loans && s'.loans == s.loans[k := s'.loans[k]]
       && s'.loans[k].status == LoanActive && s'.loans[k].receipt == listing.receipt && LoanSound(s'.loans[k], s.now)
       && listing.receipt in s.receipts && s.receipts[listing.receipt].status == InVault
       && s'.receipts
            == s.receipts[listing.receipt := s.receipts[listing.receipt].(status := Encumbered,
                                                                          encumberedBy := Some(k))]
       && s' == s.(ledger := s'.ledger, listings := s'.listings, loans := s'.loans, receipts := s'.receipts)
  }

  lemma AcceptanceCommits(s: State, c: Command)
    requires c.AcceptOffer? && AcceptOfferStep(s, c).result.Ok?
    requires var p := FindOffer(s.listings[c.listingId].offers, c.offerId).value;
             var h := s.listings[c.listingId].offers[p].hold;
             h in s.ledger.holds && s.ledger.holds[h].status == L.HoldHeld
    ensures AcceptanceWrites(s, AcceptOfferStep(s, c).state, c.listingId,
                             FindOffer(s.listings[c.listingId].offers, c.offerId).value, c.loanId)
  {
  }

  lemma AcceptanceKeepsLedger(s: State, c: Command)
    requires L.Sound(s.ledger) && c.AcceptOffer? && AcceptOfferStep(s, c).result.Ok?
    ensures L.Sound(AcceptOfferStep(s, c).state.ledger)
  {
    var listing := s.listings[c.listingId];
    var accepted := Marketplace.AcceptOffer(listing, c.offerId, c.requestedBy, c.parameters, s.now).value;
    L.ReleaseKeepsSound(s.ledger, accepted.winningOffer.hold, OriginationLines(listing, accepted), L.OriginateLoanKind);
  }

  lemma AcceptedBooks(s: State, s': State, l: ListingId, p: nat, k: LoanId)
    requires BooksSound(s) && AcceptanceWrites(s, s', l, p, k)
    ensures BooksSound(s')
  {
    AcceptanceKeepsBooks(s, l, p, s.listings[l].offers[p].(status := OfferAccepted));
  }

  lemma AcceptedPledge(s: State, s': State, l: ListingId, p: nat, k: LoanId)
    requires CollateralSound(s.receipts, s.loans) && ListingsSound(s.listings, s.receipts)
             && AcceptanceWrites(s, s', l, p, k)
    ensures CollateralSound(s'.receipts, s'.loans) && ListingsSound(s'.listings, s'.receipts)
  {
    var r := s.listings[l].receipt;
    PledgeTaken(s.receipts, s.loans, r, s'.receipts[r], k, s'.loans[k]);
    MatchedListingPledged(s.listings, s.receipts, l, s'.listings[l], s'.receipts[r]);
  }

  lemma AcceptedLoan(s: State, s': State, l: ListingId, p: nat, k: LoanId)
    requires LoansSound(s.loans, s.now) && SalesSound(s.sales, s.loans, s.now) && AcceptanceWrites(s, s', l, p, k)
    ensures LoansSound(s'.loans, s'.now) && SalesSound(s'.sales, s'.loans, s'.now)
  {
    LoansGrow(s.loans, s.sales, s.now, k, s'.loans[k]);
  }

  lemma AcceptedIsPending(s: State, c: Command) returns (p: nat)
    requires c.AcceptOffer? && AcceptOfferStep(s, c).result.Ok?
    ensures c.listingId in s.listings
    ensures FindOffer(s.listings[c.listingId].offers, c.offerId) == Some(p)
    ensures s.listings[c.listingId].offers[p].status == OfferPending
            && s.now <= s.listings[c.listingId].offers[p].expiresAt
  {
    p := FindOffer(s.listings[c.listingId].offers, c.offerId).value;
  }

  lemma AcceptanceIsWhole(s: State, c: Command) returns (p: nat)
    requires OffersSound(s.listings, s.offerSlots, s.ledger.holds, s.origins, s.now)
    requires c.AcceptOffer? && AcceptOfferStep(s, c).result.Ok?
    ensures AcceptanceWrites(s, AcceptOfferStep(s, c).state, c.listingId, p, c.loanId)
  {
    p := AcceptedIsPending(s, c);
    PendingIsHeld(s, c.listingId, p);
    AcceptanceCommits(s, c);
  }

  lemma InvAfterAcceptance(s: State, s': State, l: ListingId, p: nat, k: LoanId)
    requires Inv(s) && AcceptanceWrites(s, s', l, p, k) && L.Sound(s'.ledger)
    ensures Inv(s')
  {
    AcceptedBooks(s, s', l, p, k);
    AcceptedPledge(s, s', l, p, k);
    AcceptedLoan(s, s', l, p, k);
  }

  lemma AcceptOfferKeeps(s: State, c: Command)
    requires Inv(s) && c.AcceptOffer?
    ensures Inv(AcceptOfferStep(s, c).state)
  {
    if AcceptOfferStep(s, c).result.Ok? {
      var p := AcceptanceIsWhole(s, c);
      AcceptanceKeepsLedger(s, c);
      InvAfterAcceptance(s, AcceptOfferStep(s, c).state, c.listingId, p, c.loanId);
    }
  }

  lemma PledgeTaken(receipts: map<ReceiptId, Receipt>, loans: map<LoanId, Loan>, r: ReceiptId, pledged: Receipt,
                    k: LoanId, loan: Loan)
    requires CollateralSound(receipts, loans)
    requires r in receipts && k !in loans && loan.receipt == r && LiveLoan(loan)
    requires pledged.status == Encumbered && pledged.encumberedBy == Some(k)
    ensures CollateralSound(receipts[r := pledged], loans[k := loan])
  {
    var receipts' := receipts[r := pledged];
    forall q | q in receipts' ensures PledgeSound(receipts'[q], q, loans[k := loan]) {
      assert PledgeSound(receipts[q], q, loans);
    }
  }

  /** A listing that matches stops being live just as its receipt is pledged, and no other live listing has that
      receipt. */
  lemma MatchedListingPledged(listings: map<ListingId, Listing>, receipts: map<ReceiptId, Receipt>, l: ListingId,
                              matched: Listing, pledged: Receipt)
    requires ListingsSound(listings, receipts)
    requires l in listings && LiveListing(listings[l]) && matched.receipt == listings[l].receipt
             && !LiveListing(matched)
    ensures ListingsSound(listings[l := matched], receipts[matched.receipt := pledged])
  {
    var listings' := listings[l := matched];
    assert ListingSound(listings[l], receipts);
    forall m | m in listings' ensures ListingSound(listings'[m], receipts[matched.receipt := pledged]) {
      assert ListingSound(listings[m], receipts);
    }
  }

  lemma LoansGrow(loans: map<LoanId, Loan>, sales: map<SaleId, Sale>, now: Instant, k: LoanId, loan: Loan)
    requires LoansSound(loans, now) && SalesSound(sales, loans, now)
    requires k !in loans && LoanSound(loan, now)
    ensures LoansSound(loans[k := loan], now) && SalesSound(sales, loans[k := loan], now)
  {
    forall x | x in sales ensures SaleSound(sales[x], loans[k := loan], now) {
      assert SaleSound(sales[x], loans, now);
    }
  }

  // ----- loans -----

  /** A loan that no sale concerns changes status. */
  lemma LoanReplaced(loans: map<LoanId, Loan>, sales: map<SaleId, Sale>, now: Instant, k: LoanId, loan: Loan)
    requires LoansSound(loans, now) && SalesSound(sales, loans, now)
    requires k in loans && loans[k].status == LoanActive && LoanSound(loan, now)
    ensures LoansSound(loans[k := loan], now) && SalesSound(sales, loans[k := loan], now)
  {
    forall x | x in sales ensures SaleSound(sales[x], loans[k := loan], now) {
      assert SaleSound(sales[x], loans, now);
    }
  }

  /** Ending a loan while freeing its receipt; the receipt may have been pledged to another. */
  lemma PledgeEnds(receipts: map<ReceiptId, Receipt>, loans: map<LoanId, Loan>, freed: Receipt, k: LoanId, loan: Loan)
    requires CollateralSound(receipts, loans)
    requires k in loans && loan.receipt == loans[k].receipt && Consistent(freed) && freed.encumberedBy.None?
    ensures CollateralSound(receipts[loan.receipt := freed], loans[k := loan])
  {
    var receipts' := receipts[loan.receipt := freed];
    forall q | q in receipts' ensures PledgeSound(receipts'[q], q, loans[k := loan]) {
      assert q in receipts && PledgeSound(receipts[q], q, loans);
    }
  }

  lemma RepayLoanKeeps(s: State, c: Command)
    requires Inv(s) && c.RepayLoan?
    ensures Inv(RepayLoanStep(s, c).state)
  {
    if RepayLoanStep(s, c).result.Ok? {
      var s' := RepayLoanStep(s, c).state;
      var loan := s.loans[c.loanId];
      var receipt := s.receipts[loan.receipt];
      assert LoanSound(loan, s.now);
      assert PledgeSound(receipt, loan.receipt, s.loans);
      L.TransferKeepsSound(s.ledger, User(loan.borrower), User(loan.lender), AmountDue(loan, s.now), c.loanId);
      LoanReplaced(s.loans, s.sales, s.now, c.loanId, s'.loans[c.loanId]);
      PledgeEnds(s.receipts, s.loans, s'.receipts[loan.receipt], c.loanId, s'.loans[c.loanId]);
      ReceiptFreed(s.listings, s.receipts, loan.receipt, s'.receipts[loan.receipt]);
    }
  }

  lemma MarkDefaultKeeps(s: State, c: Command)
    requires Inv(s) && c.MarkDefault?
    ensures Inv(MarkDefaultStep(s, c).state)
  {
    if MarkDefaultStep(s, c).result.Ok? {
      var s' := MarkDefaultStep(s, c).state;
      assert LoanSound(s.loans[c.loanId], s.now);
      LoanReplaced(s.loans, s.sales, s.now, c.loanId, s'.loans[c.loanId]);
      forall r | r in s.receipts ensures PledgeSound(s.receipts[r], r, s'.loans) {
        assert PledgeSound(s.receipts[r], r, s.loans);
      }
    }
  }

  /** The receipt a claim moves was encumbered, so no live listing names it and the new holder disturbs none. */
  lemma ClaimReceiptKeeps(s: State, c: Command)
    requires Inv(s) && c.ClaimReceipt?
    ensures Inv(ClaimReceiptStep(s, c).state)
  {
    if ClaimReceiptStep(s, c).result.Ok? {
      var s' := ClaimReceiptStep(s, c).state;
      var r := s.loans[c.loanId].receipt;
      assert PledgeSound(s.receipts[r], r, s.loans);
      PledgeReplaced(s.receipts, s.loans, r, s'.receipts[r]);
      forall l | l in s.listings ensures ListingSound(s.listings[l], s'.receipts) {
        assert ListingSound(s.listings[l], s.receipts);
      }
    }
  }

  // ----- sales -----

  /** A sale is scheduled for a loan that has none, or moves on without touching its bids. */
  predicate SaleMoves(s: State, x: SaleId, sale: Sale) {
    if x in s.sales then
      && sale.loan == s.sales[x].loan && sale.bids == s.sales[x].bids
      && sale.status != SaleSettled && s.sales[x].status != SaleSettled
    else sale.bids == [] && !HasSale(s, sale.loan)
  }

  lemma SaleMovesKeepsBooks(s: State, x: SaleId, sale: Sale)
    requires BooksSound(s) && SaleMoves(s, x, sale)
    ensures BidsSound(s.sales[x := sale], s.bidSlots, s.ledger.holds, s.origins)
    ensures OriginsSound(s.origins, s.ledger.holds, s.listings, s.sales[x := sale])
  {
    var sales' := s.sales[x := sale];
    forall y, j | y in sales' && 0 <= j < |sales'[y].bids|
      ensures BidSound(sales'[y], Slot(y, j), s.bidSlots, s.ledger.holds, s.origins)
    {
      assert BidSound(s.sales[y], Slot(y, j), s.bidSlots, s.ledger.holds, s.origins);
    }
    forall h | h in s.origins ensures OriginPoints(s.origins[h], h, s.listings, sales') {
      assert OriginPoints(s.origins[h], h, s.listings, s.sales);
    }
  }

  lemma SaleMovesKeepsSales(s: State, x: SaleId, sale: Sale)
    requires SalesSound(s.sales, s.loans, s.now) && SaleMoves(s, x, sale) && SaleSound(sale, s.loans, s.now)
    ensures SalesSound(s.sales[x := sale], s.loans, s.now)
  {
    var sales' := s.sales[x := sale];
    forall y | y in sales' ensures SaleSound(sales'[y], s.loans, s.now) {
      assert y != x ==> SaleSound(s.sales[y], s.loans, s.now);
    }
  }

  lemma ScheduleLiquidationKeeps(s: State, c: Command)
    requires Inv(s) && c.ScheduleLiquidation?
    ensures Inv(ScheduleLiquidationStep(s, c).state)
  {
    if ScheduleLiquidationStep(s, c).result.Ok? {
      SaleMovesKeepsBooks(s, c.saleId, ScheduleLiquidationStep(s, c).state.sales[c.saleId]);
      SaleMovesKeepsSales(s, c.saleId, ScheduleLiquidationStep(s, c).state.sales[c.saleId]);
    }
  }

  lemma OpenLiquidationKeeps(s: State, c: Command)
    requires Inv(s) && c.OpenLiquidation?
    ensures Inv(OpenLiquidationStep(s, c).state)
  {
    if OpenLiquidationStep(s, c).result.Ok? {
      assert SaleSound(s.sales[c.saleId], s.loans, s.now);
      assert LoanSound(s.loans[s.sales[c.saleId].loan], s.now);
      SaleMovesKeepsBooks(s, c.saleId, OpenLiquidationStep(s, c).state.sales[c.saleId]);
      SaleMovesKeepsSales(s, c.saleId, OpenLiquidationStep(s, c).state.sales[c.saleId]);
    }
  }

  lemma PlaceBidKeepsBooks(s: State, c: Command)
    requires BooksSound(s) && c.PlaceBid? && PlaceBidStep(s, c).result.Ok?
    ensures BooksSound(PlaceBidStep(s, c).state)
  {
    var sale := s.sales[c.saleId];
    var bid := Bid(c.bidId, c.requestedBy, c.amount, c.holdId, s.now);
    var hold := L.FundsHold(c.requestedBy, c.amount, L.HoldHeld, None);
    BidAdded(s.sales, s.bidSlots, s.ledger.holds, s.origins, c.saleId, bid);
    OriginOfBid(s.origins, s.ledger.holds, s.listings, s.sales, c.saleId, bid, hold);
    OffersIgnore(s.listings, s.offerSlots, s.ledger.holds, s.origins, s.now, c.holdId, hold,
                 BidOrigin(Slot(c.saleId, |sale.bids|)));
  }

  lemma PlaceBidKeepsSales(s: State, c: Command)
    requires SalesSound(s.sales, s.loans, s.now) && c.PlaceBid? && PlaceBidStep(s, c).result.Ok?
    ensures SalesSound(PlaceBidStep(s, c).state.sales, s.loans, s.now)
  {
    var sale := s.sales[c.saleId];
    assert SaleSound(sale, s.loans, s.now);
    PlacedBidRaisesTheBook(sale, Bid(c.bidId, c.requestedBy, c.amount, c.holdId, s.now), s.now);
    SalesUpdated(s.sales, s.loans, s.loans, s.now, c.saleId, PlaceBidStep(s, c).state.sales[c.saleId]);
  }

  lemma BidHoldKeepsLedger(s: State, c: Command)
    requires L.Sound(s.ledger) && c.PlaceBid? && PlaceBidStep(s, c).result.Ok?
    ensures L.Sound(PlaceBidStep(s, c).state.ledger)
  {
    L.HoldKeepsSound(s.ledger, c.requestedBy, c.amount, c.saleId, c.holdId);
  }

  lemma BidTablesReplaced(s: State, s': State)
    requires Inv(s) && s' == s.(ledger := s'.ledger, sales := s'.sales, bidSlots := s'.bidSlots, origins := s'.origins)
    requires L.Sound(s'.ledger) && BooksSound(s') && SalesSound(s'.sales, s.loans, s.now)
    ensures Inv(s')
  {
  }

  lemma PlaceBidKeeps(s: State, c: Command)
    requires Inv(s) && c.PlaceBid?
    ensures Inv(PlaceBidStep(s, c).state)
  {
    if PlaceBidStep(s, c).result.Ok? {
      BidHoldKeepsLedger(s, c);
      PlaceBidKeepsBooks(s, c);
      PlaceBidKeepsSales(s, c);
      PlaceBidFrame(s, c);
      BidTablesReplaced(s, PlaceBidStep(s, c).state);
    } else {
      RefusedPlaceBid(s, c);
    }
  }

  /** One sale and its loan move on together; no other sale concerns that loan. */
  lemma SalesUpdated(sales: map<SaleId, Sale>, loans: map<LoanId, Loan>, loans': map<LoanId, Loan>, now: Instant,
                     x: SaleId, sale: Sale)
    requires SalesSound(sales, loans, now)
    requires x in sales && sale.loan == sales[x].loan && SaleSound(sale, loans', now)
    requires forall k :: k in loans && k != sale.loan ==> k in loans' && loans'[k] == loans[k]
    ensures SalesSound(sales[x := sale], loans', now)
  {
    var sales' := sales[x := sale];
    forall y | y in sales' ensures SaleSound(sales'[y], loans', now) {
      assert SaleSound(sales[y], loans, now);
    }
  }

  lemma BidIsUnique(s: State, x: SaleId, p: nat, i: nat)
    requires BidsSound(s.sales, s.bidSlots, s.ledger.holds, s.origins)
    requires x in s.sales && p < |s.sales[x].bids| && i < |s.sales[x].bids|
    requires s.sales[x].bids[p].id == s.sales[x].bids[i].id
    ensures p == i
  {
    assert BidSound(s.sales[x], Slot(x, p), s.bidSlots, s.ledger.holds, s.origins);
    assert BidSound(s.sales[x], Slot(x, i), s.bidSlots, s.ledger.holds, s.origins);
  }

  /** In a reachable book exactly the last bid is not reclaimable. */
  lemma ReclaimableIsBeaten(s: State, x: SaleId, p: nat)
    requires SalesSound(s.sales, s.loans, s.now) && BidsSound(s.sales, s.bidSlots, s.ledger.holds, s.origins)
    requires x in s.sales && p < |s.sales[x].bids|
    ensures IsReclaimable(HighestBid(s.sales[x].bids), s.sales[x].winningBid, s.sales[x].bids[p])
            <==> p + 1 != |s.sales[x].bids|
  {
    var sale := s.sales[x];
    assert SaleSound(sale, s.loans, s.now);
    HighestIsLast(sale.bids);
    if sale.bids[p].id == sale.bids[|sale.bids| - 1].id {
      BidIsUnique(s, x, p, |sale.bids| - 1);
    }
  }

  lemma BidRefundKeepsBooks(s: State, x: SaleId, p: nat)
    requires BooksSound(s)
    requires x in s.sales && p + 1 < |s.sales[x].bids|
    requires L.Refund(s.ledger, s.sales[x].bids[p].hold).Ok?
    ensures BooksSound(s.(ledger := L.Refund(s.ledger, s.sales[x].bids[p].hold).value.ledger))
  {
    var sale := s.sales[x];
    var h := sale.bids[p].hold;
    var holds' := L.Refund(s.ledger, h).value.ledger.holds;
    assert BidSound(sale, Slot(x, p), s.bidSlots, s.ledger.holds, s.origins);
    if s.ledger.holds[h].status == L.HoldHeld {
      BidHoldSettles(s.sales, s.bidSlots, s.ledger.holds, s.origins, x, p, sale, L.HoldRefunded, |s.ledger.journal|);
      assert s.sales[x := sale] == s.sales;
      BidSettlementSparesOffers(s, h, holds'[h]);
    }
  }

  lemma BidRefundKeeps(s: State, x: SaleId, p: nat)
    requires Inv(s)
    requires x in s.sales && p + 1 < |s.sales[x].bids|
    requires L.Refund(s.ledger, s.sales[x].bids[p].hold).Ok?
    ensures Inv(s.(ledger := L.Refund(s.ledger, s.sales[x].bids[p].hold).value.ledger))
  {
    L.RefundKeepsSound(s.ledger, s.sales[x].bids[p].hold);
    BidRefundKeepsBooks(s, x, p);
    LedgerReplaced(s, L.Refund(s.ledger, s.sales[x].bids[p].hold).value.ledger);
  }

  lemma BeatenRefundKeeps(s: State, x: SaleId, p: nat)
    requires Inv(s) && x in s.sales && p < |s.sales[x].bids|
    requires IsReclaimable(HighestBid(s.sales[x].bids), s.sales[x].winningBid, s.sales[x].bids[p])
    requires L.Refund(s.ledger, s.sales[x].bids[p].hold).Ok?
    ensures Inv(s.(ledger := L.Refund(s.ledger, s.sales[x].bids[p].hold).value.ledger))
  {
    ReclaimableIsBeaten(s, x, p);
    BidRefundKeeps(s, x, p);
  }

  /** What a successful reclaim of a bid writes. */
  lemma BidReclaimWrites(s: State, c: Command) returns (p: nat)
    requires c.ReclaimBid? && ReclaimBidStep(s, c).result.Ok?
    ensures c.saleId in s.sales && p < |s.sales[c.saleId].bids|
    ensures var sale := s.sales[c.saleId]; IsReclaimable(HighestBid(sale.bids), sale.winningBid, sale.bids[p])
    ensures L.Refund(s.ledger, s.sales[c.saleId].bids[p].hold).Ok?
    ensures ReclaimBidStep(s, c).state == s.(ledger := L.Refund(s.ledger, s.sales[c.saleId].bids[p].hold).value.ledger)
  {
    p := FindBid(s.sales[c.saleId].bids, c.bidId).value;
  }

  lemma ReclaimBidKeeps(s: State, c: Command)
    requires Inv(s) && c.ReclaimBid?
    ensures Inv(ReclaimBidStep(s, c).state)
  {
    if ReclaimBidStep(s, c).result.Ok? {
      var p := BidReclaimWrites(s, c);
      BeatenRefundKeeps(s, c.saleId, p);
    } else {
      RefusedReclaimBid(s, c);
    }
  }

  lemma WinningBidIsHeld(s: State, x: SaleId)
    requires Inv(s) && x in s.sales && s.sales[x].status == SaleBidding && s.sales[x].bids != []
    ensures var winner := s.sales[x].bids[|s.sales[x].bids| - 1];
            && HighestBid(s.sales[x].bids) == Some(winner)
            && winner.hold in s.ledger.holds
            && s.ledger.holds[winner.hold] == L.FundsHold(winner.bidder, winner.amount, L.HoldHeld, None)
            && s.origins[winner.hold] == BidOrigin(Slot(x, |s.sales[x].bids| - 1))
  {
    var sale := s.sales[x];
    assert SaleSound(sale, s.loans, s.now);
    HighestIsLast(sale.bids);
    assert BidSound(sale, Slot(x, |sale.bids| - 1), s.bidSlots, s.ledger.holds, s.origins);
    assert sale.bids[|sale.bids| - 1].hold in s.ledger.holds;
  }

  /** What a closing sale writes. */
  ghost predicate CloseWrites(s: State, s': State, x: SaleId) {
    && x in s.sales && s.sales[x].status == SaleBidding && s.sales[x].bids != []
    && s.sales[x].loan in s.loans
    && var sale := s.sales[x];
       var loan := s.loans[sale.loan];
       var winner := sale.bids[|sale.bids| - 1];
       && winner.hold in s.ledger.holds
       && loan.receipt in s.receipts && Live(s.receipts[loan.receipt])
       && s'.ledger.holds == L.Settled(s.ledger.holds, winner.hold, L.HoldReleased, |s.ledger.journal|)
       && s'.receipts
            == s.receipts[loan.receipt := s.receipts[loan.receipt].(status := ReceiptLiquidated, encumberedBy := None)]
       && s'.loans == s.loans[sale.loan := loan.(status := LoanLiquidated)]
       && s'.sales == s.sales[x := sale.(status := SaleSettled, winningBid := Some(winner.id))]
       && s' == s.(ledger := s'.ledger, receipts := s'.receipts, loans := s'.loans, sales := s'.sales)
  }

  lemma CloseCommits(s: State, c: Command)
    requires c.CloseLiquidation? && CloseLiquidationStep(s, c).state != s
    requires var sale := s.sales[c.saleId];
             && sale.bids != [] && HighestBid(sale.bids) == Some(sale.bids[|sale.bids| - 1])
             && sale.bids[|sale.bids| - 1].hold in s.ledger.holds
             && s.ledger.holds[sale.bids[|sale.bids| - 1].hold].status == L.HoldHeld
             && MarkLiquidated(s.loans[sale.loan]).Ok?
    ensures CloseLiquidationStep(s, c).result.Ok?
    ensures CloseWrites(s, CloseLiquidationStep(s, c).state, c.saleId)
  {
  }

  lemma CloseNeedsBids(s: State, c: Command)
    requires c.CloseLiquidation? && CloseLiquidationStep(s, c).state != s
    ensures c.saleId in s.sales && s.sales[c.saleId].status == SaleBidding && s.sales[c.saleId].bids != []
  {
  }

  lemma BiddingSaleHasDefaultedLoan(s: State, x: SaleId)
    requires Inv(s) && x in s.sales && s.sales[x].status == SaleBidding
    ensures s.sales[x].loan in s.loans && MarkLiquidated(s.loans[s.sales[x].loan]).Ok?
  {
    assert SaleSound(s.sales[x], s.loans, s.now);
    assert LoanSound(s.loans[s.sales[x].loan], s.now);
  }

  /** On a reachable state a sale that closes finds its high bid held and its loan defaulted: so whenever it
      writes anything it completes, and the failure it could return after its writes is never returned. */
  lemma CloseIsWhole(s: State, c: Command)
    requires Inv(s) && c.CloseLiquidation? && CloseLiquidationStep(s, c).state != s
    ensures CloseLiquidationStep(s, c).result.Ok?
    ensures CloseWrites(s, CloseLiquidationStep(s, c).state, c.saleId)
  {
    CloseNeedsBids(s, c);
    BiddingSaleHasDefaultedLoan(s, c.saleId);
    WinningBidIsHeld(s, c.saleId);
    CloseCommits(s, c);
  }

  lemma CloseKeepsLedger(s: State, c: Command)
    requires L.Sound(s.ledger) && c.CloseLiquidation?
    ensures L.Sound(CloseLiquidationStep(s, c).state.ledger)
  {
    if CloseLiquidationStep(s, c).state != s {
      var loan := s.loans[s.sales[c.saleId].loan];
      var winner := Close(s.sales[c.saleId]).value.winningBid;
      L.ReleaseKeepsSound(s.ledger, winner.hold, SettlementLines(loan, winner, s.now), L.SettleLiquidationKind);
    }
  }

  lemma SettlementKeepsBooks(s: State, x: SaleId, sale': Sale)
    requires BooksSound(s)
    requires x in s.sales && s.sales[x].bids != [] && sale'.bids == s.sales[x].bids && sale'.status == SaleSettled
    requires s.sales[x].bids[|s.sales[x].bids| - 1].hold in s.ledger.holds
    ensures var holds' := L.Settled(s.ledger.holds, s.sales[x].bids[|s.sales[x].bids| - 1].hold, L.HoldReleased,
                                    |s.ledger.journal|);
            && OffersSound(s.listings, s.offerSlots, holds', s.origins, s.now)
            && BidsSound(s.sales[x := sale'], s.bidSlots, holds', s.origins)
            && OriginsSound(s.origins, holds', s.listings, s.sales[x := sale'])
  {
    var sale := s.sales[x];
    var p := |sale.bids| - 1;
    var h := sale.bids[p].hold;
    assert BidSound(sale, Slot(x, p), s.bidSlots, s.ledger.holds, s.origins);
    BidHoldSettles(s.sales, s.bidSlots, s.ledger.holds, s.origins, x, p, sale', L.HoldReleased, |s.ledger.journal|);
    var sales' := s.sales[x := sale'];
    forall g | g in s.origins ensures OriginPoints(s.origins[g], g, s.listings, sales') {
      assert OriginPoints(s.origins[g], g, s.listings, s.sales);
    }
    BidSettlementSparesOffers(s, h, L.Settled(s.ledger.holds, h, L.HoldReleased, |s.ledger.journal|)[h]);
  }

  lemma ClosedCollateral(s: State, s': State, x: SaleId)
    requires CollateralSound(s.receipts, s.loans) && ListingsSound(s.listings, s.receipts) && CloseWrites(s, s', x)
    ensures CollateralSound(s'.receipts, s'.loans) && ListingsSound(s'.listings, s'.receipts)
  {
    var k := s.sales[x].loan;
    var r := s.loans[k].receipt;
    PledgeEnds(s.receipts, s.loans, s'.receipts[r], k, s'.loans[k]);
    ReceiptFreed(s.listings, s.receipts, r, s'.receipts[r]);
  }

  lemma ClosedLoans(s: State, s': State, x: SaleId)
    requires LoansSound(s.loans, s.now) && SalesSound(s.sales, s.loans, s.now) && CloseWrites(s, s', x)
    ensures LoansSound(s'.loans, s'.now)
  {
    assert SaleSound(s.sales[x], s.loans, s.now);
    assert LoanSound(s.loans[s.sales[x].loan], s.now);
  }

  lemma ClosedSales(s: State, s': State, x: SaleId)
    requires SalesSound(s.sales, s.loans, s.now) && CloseWrites(s, s', x)
    ensures SalesSound(s'.sales, s'.loans, s'.now)
  {
    assert SaleSound(s.sales[x], s.loans, s.now);
    SalesUpdated(s.sales, s.loans, s'.loans, s.now, x, s'.sales[x]);
  }

  lemma InvAfterClose(s: State, s': State, x: SaleId)
    requires Inv(s) && CloseWrites(s, s', x) && L.Sound(s'.ledger)
    ensures Inv(s')
  {
    SettlementKeepsBooks(s, x, s'.sales[x]);
    ClosedCollateral(s, s', x);
    ClosedLoans(s, s', x);
    ClosedSales(s, s', x);
  }

  lemma CloseLiquidationKeeps(s: State, c: Command)
    requires Inv(s) && c.CloseLiquidation?
    ensures Inv(CloseLiquidationStep(s, c).state)
  {
    if CloseLiquidationStep(s, c).state != s {
      CloseIsWhole(s, c);
      CloseKeepsLedger(s, c);
      InvAfterClose(s, CloseLiquidationStep(s, c).state, c.saleId);
    }
  }

  // ----- every step and every run -----

  lemma PlainStepKeeps(s: State, c: Command)
    requires Inv(s) && IsPlain(c)
    ensures Inv(PlainStep(s, c).state)
  {
    if c.Tick? { TickKeeps(s, c); }
    if c.Deposit? { DepositKeeps(s, c); }
    if c.Withdraw? { WithdrawKeeps(s, c); }
    if c.IssueReceipt? { IssueReceiptKeeps(s, c); }
    if c.RequestRedemption? { RequestRedemptionKeeps(s, c); }
  }

  lemma MarketStepKeeps(s: State, c: Command)
    requires Inv(s) && IsMarket(c)
    ensures Inv(MarketStep(s, c).state)
  {
    if c.CreateListing? { CreateListingKeeps(s, c); }
    if c.PublishListing? { PublishListingKeeps(s, c); }
    if c.CancelListing? { CancelListingKeeps(s, c); }
    if c.PlaceOffer? { PlaceOfferKeeps(s, c); }
    if c.WithdrawOffer? { WithdrawOfferKeeps(s, c); }
    if c.ReclaimHold? { ReclaimHoldKeeps(s, c); }
  }

  lemma LendingStepKeeps(s: State, c: Command)
    requires Inv(s) && IsLending(c)
    ensures Inv(LendingStep(s, c).state)
  {
    if c.AcceptOffer? { AcceptOfferKeeps(s, c); }
    if c.RepayLoan? { RepayLoanKeeps(s, c); }
    if c.MarkDefault? { MarkDefaultKeeps(s, c); }
    if c.ClaimReceipt? { ClaimReceiptKeeps(s, c); }
  }

  lemma AuctionStepKeeps(s: State, c: Command)
    requires Inv(s) && IsAuction(c)
    ensures Inv(AuctionStep(s, c).state)
  {
    if c.ScheduleLiquidation? { ScheduleLiquidationKeeps(s, c); }
    if c.OpenLiquidation? { OpenLiquidationKeeps(s, c); }
    if c.PlaceBid? { PlaceBidKeeps(s, c); }
    if c.ReclaimBid? { ReclaimBidKeeps(s, c); }
    if c.CloseLiquidation? { CloseLiquidationKeeps(s, c); }
  }

  /** One step keeps the invariant, whatever the command and whether or not it is refused. */
  lemma StepKeeps(s: State, c: Command)
    requires Inv(s)
    ensures Inv(Step(s, c).state)
  {
    if IsPlain(c) {
      PlainStepKeeps(s, c);
    } else if IsMarket(c) {
      MarketStepKeeps(s, c);
    } else if IsLending(c) {
      LendingStepKeeps(s, c);
    } else {
      AuctionStepKeeps(s, c);
    }
  }

  lemma {:induction false} RunKeeps(s: State, commands: seq<Command>)
    requires Inv(s)
    ensures Inv(Run(s, commands))
  {
    if commands != [] {
      RunKeeps(s, commands[..|commands| - 1]);
      StepKeeps(Run(s, commands[..|commands| - 1]), commands[|commands| - 1]);
    }
  }
}
