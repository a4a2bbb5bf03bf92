/** What taking, refunding and releasing a hold does to the books it backs. */
module HoldEffects {
  import opened Shared
  import opened Marketplace
  import opened Liquidations
  import opened Protocol
  import opened Invariant
  import L = Ledger

  // ----- a hold that belongs elsewhere -----

  lemma OffersIgnore(listings: map<ListingId, Listing>, offerSlots: map<OfferId, Slot>, holds: Holds,
                     origins: map<HoldId, Origin>, now: Instant,
                     h: HoldId, hold: L.FundsHold, origin: Origin)
    requires OffersSound(listings, offerSlots, holds, origins, now)
    requires h in origins ==> origins[h].BidOrigin? && origins[h] == origin
    ensures OffersSound(listings, offerSlots, holds[h := hold], origins[h := origin], now)
  {
    forall l, i | l in listings && 0 <= i < |listings[l].offers|
      ensures OfferSound(listings[l].offers[i], Slot(l, i), offerSlots, holds[h := hold], origins[h := origin], now)
    {
      assert OfferSound(listings[l].offers[i], Slot(l, i), offerSlots, holds, origins, now);
    }
  }

  lemma BidsIgnore(sales: map<SaleId, Sale>, bidSlots: map<BidId, Slot>, holds: Holds, origins: map<HoldId, Origin>,
                   h: HoldId, hold: L.FundsHold, origin: Origin)
    requires BidsSound(sales, bidSlots, holds, origins)
    requires h in origins ==> origins[h].OfferOrigin? && origins[h] == origin
    ensures BidsSound(sales, bidSlots, holds[h := hold], origins[h := origin])
  {
    forall x, j | x in sales && 0 <= j < |sales[x].bids|
      ensures BidSound(sales[x], Slot(x, j), bidSlots, holds[h := hold], origins[h := origin])
    {
      assert BidSound(sales[x], Slot(x, j), bidSlots, holds, origins);
    }
  }

  // ----- an offer comes with its hold -----

  lemma OfferAdded(listings: map<ListingId, Listing>, offerSlots: map<OfferId, Slot>, holds: Holds,
                   origins: map<HoldId, Origin>, now: Instant,
                   l: ListingId, offer: Offer)
    requires OffersSound(listings, offerSlots, holds, origins, now)
    requires l in listings && offer.id !in offerSlots && offer.hold !in holds && offer.status == OfferPending
    ensures var slot := Slot(l, |listings[l].offers|);
            OffersSound(listings[l := listings[l].(offers := listings[l].offers + [offer])],
                        offerSlots[offer.id := slot],
                        holds[offer.hold := L.FundsHold(offer.lender, offer.principal, L.HoldHeld, None)],
                        origins[offer.hold := OfferOrigin(slot)], now)
  {
    var slot := Slot(l, |listings[l].offers|);
    var listings' := listings[l := listings[l].(offers := listings[l].offers + [offer])];
    var holds' := holds[offer.hold := L.FundsHold(offer.lender, offer.principal, L.HoldHeld, None)];
    forall m, i | m in listings' && 0 <= i < |listings'[m].offers|
      ensures OfferSound(listings'[m].offers[i], Slot(m, i), offerSlots[offer.id := slot], holds',
                         origins[offer.hold := OfferOrigin(slot)], now)
    {
      if Slot(m, i) != slot {
        assert listings'[m].offers[i] == listings[m].offers[i];
        assert OfferSound(listings[m].offers[i], Slot(m, i), offerSlots, holds, origins, now);
      }
    }
  }

  lemma OriginOfOffer(origins: map<HoldId, Origin>, holds: Holds, listings: map<ListingId, Listing>,
                      sales: map<SaleId, Sale>,
                      l: ListingId, offer: Offer, hold: L.FundsHold)
    requires OriginsSound(origins, holds, listings, sales)
    requires l in listings && offer.hold !in holds
    ensures OriginsSound(origins[offer.hold := OfferOrigin(Slot(l, |listings[l].offers|))], holds[offer.hold := hold],
                         listings[l := listings[l].(offers := listings[l].offers + [offer])], sales)
  {
    var listings' := listings[l := listings[l].(offers := listings[l].offers + [offer])];
    var origins' := origins[offer.hold := OfferOrigin(Slot(l, |listings[l].offers|))];
    forall h | h in origins' ensures OriginPoints(origins'[h], h, listings', sales) {
      assert h in origins ==> OriginPoints(origins[h], h, listings, sales);
    }
  }

  // ----- a bid comes with its hold -----

  /** The new bid takes over as high bid; the one it beats keeps a hold that was still held. */
  lemma BidAdded(sales: map<SaleId, Sale>, bidSlots: map<BidId, Slot>, holds: Holds, origins: map<HoldId, Origin>,
                 x: SaleId, bid: Bid)
    requires BidsSound(sales, bidSlots, holds, origins)
    requires x in sales && sales[x].status == SaleBidding && bid.id !in bidSlots && bid.hold !in holds
    ensures var slot := Slot(x, |sales[x].bids|);
            BidsSound(sales[x := sales[x].(bids := sales[x].bids + [bid])],
                      bidSlots[bid.id := slot],
                      holds[bid.hold := L.FundsHold(bid.bidder, bid.amount, L.HoldHeld, None)],
                      origins[bid.hold := BidOrigin(slot)])
  {
    var slot := Slot(x, |sales[x].bids|);
    var sales' := sales[x := sales[x].(bids := sales[x].bids + [bid])];
    var holds' := holds[bid.hold := L.FundsHold(bid.bidder, bid.amount, L.HoldHeld, None)];
    forall y, j | y in sales' && 0 <= j < |sales'[y].bids|
      ensures BidSound(sales'[y], Slot(y, j), bidSlots[bid.id := slot], holds', origins[bid.hold := BidOrigin(slot)])
    {
      if Slot(y, j) != slot {
        assert sales'[y].bids[j] == sales[y].bids[j];
        assert BidSound(sales[y], Slot(y, j), bidSlots, holds, origins);
      }
    }
  }

  lemma OriginOfBid(origins: map<HoldId, Origin>, holds: Holds, listings: map<ListingId, Listing>,
                    sales: map<SaleId, Sale>,
                    x: SaleId, bid: Bid, hold: L.FundsHold)
    requires OriginsSound(origins, holds, listings, sales)
    requires x in sales && bid.hold !in holds
    ensures OriginsSound(origins[bid.hold := BidOrigin(Slot(x, |sales[x].bids|))], holds[bid.hold := hold],
                         listings, sales[x := sales[x].(bids := sales[x].bids + [bid])])
  {
    var sales' := sales[x := sales[x].(bids := sales[x].bids + [bid])];
    var origins' := origins[bid.hold := BidOrigin(Slot(x, |sales[x].bids|))];
    forall h | h in origins' ensures OriginPoints(origins'[h], h, listings, sales') {
      assert h in origins ==> OriginPoints(origins[h], h, listings, sales);
    }
  }

  // ----- an offer's hold settles -----

  /** Settling one offer's hold, with the book rewritten so that the settled offer's status matches and
      every other offer is as it was or superseded from pending. */
  lemma OfferHoldSettles(listings: map<ListingId, Listing>, offerSlots: map<OfferId, Slot>, holds: Holds,
                         origins: map<HoldId, Origin>, now: Instant,
                         l: ListingId, p: nat, listing': Listing, status: L.HoldStatus, reference: L.TransactionId)
    requires OffersSound(listings, offerSlots, holds, origins, now)
    requires l in listings && p < |listings[l].offers| == |listing'.offers|
    requires listings[l].offers[p].hold in holds
    requires listing'.offers[p] == listings[l].offers[p].(status := listing'.offers[p].status)
    requires OfferStatusMatches(listing'.offers[p], status, now)
    requires forall i :: 0 <= i < |listing'.offers| && i != p ==>
               || listing'.offers[i] == listings[l].offers[i]
               || (listings[l].offers[i].status == OfferPending
                   && listing'.offers[i] == listings[l].offers[i].(status := OfferSuperseded))
    ensures OffersSound(listings[l := listing'], offerSlots,
                        L.Settled(holds, listings[l].offers[p].hold, status, reference), origins, now)
  {
    var holds' := L.Settled(holds, listings[l].offers[p].hold, status, reference);
    var listings' := listings[l := listing'];
    assert OfferSound(listings[l].offers[p], Slot(l, p), offerSlots, holds, origins, now);
    forall m, i | m in listings' && 0 <= i < |listings'[m].offers|
      ensures OfferSound(listings'[m].offers[i], Slot(m, i), offerSlots, holds', origins, now)
    {
      assert OfferSound(listings[m].offers[i], Slot(m, i), offerSlots, holds, origins, now);
      if m == l {
        assert i == p || listing'.offers[i] == listings[l].offers[i]
               || listing'.offers[i] == listings[l].offers[i].(status := OfferSuperseded);
      }
    }
  }

  lemma OriginsSurvive(origins: map<HoldId, Origin>, holds: Holds, holds': Holds, listings: map<ListingId, Listing>,
                       sales: map<SaleId, Sale>,
                       l: ListingId, listing': Listing)
    requires OriginsSound(origins, holds, listings, sales)
    requires holds'.Keys == holds.Keys
    requires l in listings && |listing'.offers| == |listings[l].offers|
    requires forall i :: 0 <= i < |listing'.offers| ==> listing'.offers[i].hold == listings[l].offers[i].hold
    ensures OriginsSound(origins, holds', listings[l := listing'], sales)
  {
    forall h | h in origins ensures OriginPoints(origins[h], h, listings[l := listing'], sales) {
      assert OriginPoints(origins[h], h, listings, sales);
    }
  }

  // ----- a bid's hold settles -----

  lemma BidHoldSettles(sales: map<SaleId, Sale>, bidSlots: map<BidId, Slot>, holds: Holds, origins: map<HoldId, Origin>,
                       x: SaleId, p: nat, sale': Sale, status: L.HoldStatus, reference: L.TransactionId)
    requires BidsSound(sales, bidSlots, holds, origins)
    requires x in sales && sale'.bids == sales[x].bids && p < |sale'.bids|
    requires sale'.bids[p].hold in holds
    requires BidStatusMatches(sale', p, status)
    requires sale'.status == sales[x].status || p + 1 == |sale'.bids|
    ensures BidsSound(sales[x := sale'], bidSlots, L.Settled(holds, sale'.bids[p].hold, status, reference), origins)
  {
    var holds' := L.Settled(holds, sale'.bids[p].hold, status, reference);
    var sales' := sales[x := sale'];
    assert BidSound(sales[x], Slot(x, p), bidSlots, holds, origins);
    forall y, j | y in sales' && 0 <= j < |sales'[y].bids|
      ensures BidSound(sales'[y], Slot(y, j), bidSlots, holds', origins)
    {
      assert BidSound(sales[y], Slot(y, j), bidSlots, holds, origins);
    }
  }
}
