/** How a listing's offers are ranked for its borrower. */
module RankOffers {
  import opened Shared
  import opened Money
  import opened Marketplace
  import opened StableSorting
  import Interest
  import Loans

  datatype RankedOffer = RankedOffer(offer: Offer, totalCostToBorrower: int)

  /** The interest over the duration the borrower asked for, whatever duration the offer names. */
  function Cost(offer: Offer, requestedDurationMs: int): int {
    TruncatedQuotient(offer.principal * offer.rate * requestedDurationMs, Interest.Denominator)
  }

  /** The cheaper first, then the earlier. */
  predicate RanksBefore(left: RankedOffer, right: RankedOffer) {
    left.totalCostToBorrower < right.totalCostToBorrower
    || (left.totalCostToBorrower == right.totalCostToBorrower && left.offer.createdAt <= right.offer.createdAt)
  }

  function Costed(offers: seq<Offer>, requestedDurationMs: int): seq<RankedOffer> {
    seq(|offers|, i requires 0 <= i < |offers| => RankedOffer(offers[i], Cost(offers[i], requestedDurationMs)))
  }

  function Pending(offers: seq<Offer>): seq<Offer> {
    Filter(offers, (offer: Offer) => offer.status == OfferPending)
  }

  function Rank(offers: seq<Offer>, listing: Listing): seq<RankedOffer> {
    Sort(Costed(Pending(offers), listing.requestedDurationMs), RanksBefore)
  }

  /** `cost` is what `principal` costs at `rate` over `durationMs`, rounded to whole minor units towards zero. */
  predicate IsCost(cost: int, principal: int, rate: nat, durationMs: int) {
    var exact := principal * rate * durationMs;
    var perYear := 10_000 * 31_536_000_000;
    if exact >= 0 then cost * perYear <= exact < (cost + 1) * perYear
    else (cost - 1) * perYear < exact <= cost * perYear
  }

  lemma CostIsExact(offer: Offer, requestedDurationMs: int)
    ensures IsCost(Cost(offer, requestedDurationMs), offer.principal, offer.rate, requestedDurationMs)
  {}

  /** Of any two ranked offers the one in front costs less, or costs the same and was made no later; each cost is that
      of its offer over the duration the borrower asked for. */
  lemma CheaperThenEarlier(offers: seq<Offer>, listing: Listing, i: nat, j: nat)
    requires i < j < |Rank(offers, listing)|
    ensures var ranked := Rank(offers, listing);
            var front, back := ranked[i], ranked[j];
            && (front.totalCostToBorrower < back.totalCostToBorrower
                || (front.totalCostToBorrower == back.totalCostToBorrower
                    && front.offer.createdAt <= back.offer.createdAt))
            && IsCost(front.totalCostToBorrower, front.offer.principal, front.offer.rate, listing.requestedDurationMs)
            && IsCost(back.totalCostToBorrower, back.offer.principal, back.offer.rate, listing.requestedDurationMs)
  {
    var ranked, costed := Rank(offers, listing), Costed(Pending(offers), listing.requestedDurationMs);
    SortIsSorted(costed, RanksBefore);
    assert RanksBefore(ranked[i], ranked[j]);
    RankedAtItsCost(offers, listing, i);
    RankedAtItsCost(offers, listing, j);
  }

  lemma RankedAtItsCost(offers: seq<Offer>, listing: Listing, i: nat)
    requires i < |Rank(offers, listing)|
    ensures var ranked := Rank(offers, listing)[i];
            IsCost(ranked.totalCostToBorrower, ranked.offer.principal, ranked.offer.rate, listing.requestedDurationMs)
  {
    var ranked, costed := Rank(offers, listing), Costed(Pending(offers), listing.requestedDurationMs);
    InMultiset(ranked, costed, ranked[i]);
    var k :| 0 <= k < |costed| && costed[k] == ranked[i];
    CostIsExact(costed[k].offer, listing.requestedDurationMs);
  }

  /** The ranking holds each pending offer with its cost as often as the book does, cheapest first and then
      earliest first; offers that tie on both keep the order of the book. */
  lemma RankIsAStableSort(offers: seq<Offer>, listing: Listing, key: RankedOffer)
    ensures var ranked := Rank(offers, listing);
            var pending := Costed(Pending(offers), listing.requestedDurationMs);
            && multiset(ranked) == multiset(pending)
            && (forall i, j :: 0 <= i < j < |ranked| ==>
                  ranked[i].totalCostToBorrower < ranked[j].totalCostToBorrower
                  || (ranked[i].totalCostToBorrower == ranked[j].totalCostToBorrower
                      && ranked[i].offer.createdAt <= ranked[j].offer.createdAt))
            && TiesWith(ranked, key, RanksBefore)
               == Costed(BookTies(offers, listing.requestedDurationMs, key), listing.requestedDurationMs)
    ensures forall offer :: offer in Pending(offers) <==> offer in offers && offer.status == OfferPending
    ensures forall offer :: (exists i :: 0 <= i < |Rank(offers, listing)| && Rank(offers, listing)[i].offer == offer)
                            <==> offer in offers && offer.status == OfferPending
  {
    var ranked := Rank(offers, listing);
    var costed := Costed(Pending(offers), listing.requestedDurationMs);
    SortIsSorted(costed, RanksBefore);
    SortIsStable(costed, key, RanksBefore);
    TiesAreInBookOrder(offers, listing.requestedDurationMs, key);
    forall i, j | 0 <= i < j < |ranked|
      ensures ranked[i].totalCostToBorrower < ranked[j].totalCostToBorrower
              || (ranked[i].totalCostToBorrower == ranked[j].totalCostToBorrower
                  && ranked[i].offer.createdAt <= ranked[j].offer.createdAt)
    {
      CheaperThenEarlier(offers, listing, i, j);
    }
    forall offer ensures offer in Pending(offers) <==> offer in offers && offer.status == OfferPending {
      FilterMembers(offers, (o: Offer) => o.status == OfferPending, offer);
    }
    forall offer
      ensures (exists i :: 0 <= i < |ranked| && ranked[i].offer == offer) <==> offer in Pending(offers)
    {
      RankedOffersArePending(offers, listing, offer);
    }
  }

  /** The pending offers of the book with the cost and the creation time of `key`, in the order of the book. */
  function BookTies(offers: seq<Offer>, requestedDurationMs: int, key: RankedOffer): seq<Offer> {
    if offers == [] then []
    else
      var tied := && offers[0].status == OfferPending
                  && Cost(offers[0], requestedDurationMs) == key.totalCostToBorrower
                  && offers[0].createdAt == key.offer.createdAt;
      (if tied then [offers[0]] else []) + BookTies(offers[1..], requestedDurationMs, key)
  }

  lemma CostedCons(offer: Offer, offers: seq<Offer>, requestedDurationMs: int)
    ensures Costed([offer] + offers, requestedDurationMs)
         == [RankedOffer(offer, Cost(offer, requestedDurationMs))] + Costed(offers, requestedDurationMs)
  {}

  lemma {:induction false} TiesAreInBookOrder(offers: seq<Offer>, requestedDurationMs: int, key: RankedOffer)
    ensures TiesWith(Costed(Pending(offers), requestedDurationMs), key, RanksBefore)
         == Costed(BookTies(offers, requestedDurationMs, key), requestedDurationMs)
  {
    if offers != [] {
      var first, rest := offers[0], offers[1..];
      TiesAreInBookOrder(rest, requestedDurationMs, key);
      CostedCons(first, Pending(rest), requestedDurationMs);
      CostedCons(first, BookTies(rest, requestedDurationMs, key), requestedDurationMs);
      if first.status == OfferPending {
        assert Pending(offers) == [first] + Pending(rest);
        TiesOfCons(RankedOffer(first, Cost(first, requestedDurationMs)), Costed(Pending(rest), requestedDurationMs),
                   key, RanksBefore);
      } else {
        assert Pending(offers) == Pending(rest);
      }
    }
  }

  lemma RankedOffersArePending(offers: seq<Offer>, listing: Listing, offer: Offer)
    ensures (exists i :: 0 <= i < |Rank(offers, listing)| && Rank(offers, listing)[i].offer == offer)
            <==> offer in Pending(offers)
  {
    var ranked := Rank(offers, listing);
    var pending := Pending(offers);
    var costed := Costed(pending, listing.requestedDurationMs);
    if i :| 0 <= i < |ranked| && ranked[i].offer == offer {
      InMultiset(ranked, costed, ranked[i]);
      var j :| 0 <= j < |costed| && costed[j] == ranked[i];
      assert pending[j] == offer;
    }
    if offer in pending {
      var j :| 0 <= j < |pending| && pending[j] == offer;
      assert costed[j] in costed;
      InMultiset(ranked, costed, costed[j]);
    }
  }

  /** For an offer as long as the borrower asked for, the ranked cost is what the loan originated from it
      owes in interest at maturity and ever after. */
  lemma RankedCostIsTheInterestOwed(offer: Offer, listing: Listing, startedAt: Instant, gracePeriodMs: int,
                                    liquidationFeeBasisPoints: nat, now: Instant)
    requires offer.durationMs == listing.requestedDurationMs
    requires var loan := Loans.Originate(listing.receipt, listing.borrower, offer.lender, offer.principal, offer.rate,
                                         startedAt,
                                         offer.durationMs, gracePeriodMs, liquidationFeeBasisPoints);
             loan.Ok? && loan.value.maturesAt <= now
    ensures var loan := Loans.Originate(listing.receipt, listing.borrower, offer.lender, offer.principal, offer.rate,
                                        startedAt,
                                        offer.durationMs, gracePeriodMs, liquidationFeeBasisPoints).value;
            Loans.AccruedInterest(loan, now) == Cost(offer, listing.requestedDurationMs)
  {
    var loan := Loans.Originate(listing.receipt, listing.borrower, offer.lender, offer.principal, offer.rate, startedAt,
                                offer.durationMs, gracePeriodMs, liquidationFeeBasisPoints).value;
    Interest.ConstantFromMaturity(loan.principal, loan.rate, loan.startedAt, loan.maturesAt, now);
  }

  /** Over the same duration a cheaper rate on the same principal never ranks behind a dearer one created later. */
  lemma LowerRateRanksFirst(cheap: Offer, dear: Offer, listing: Listing)
    requires cheap.principal == dear.principal >= 0 && cheap.rate <= dear.rate && cheap.createdAt <= dear.createdAt
    requires listing.requestedDurationMs >= 0
    ensures RanksBefore(RankedOffer(cheap, Cost(cheap, listing.requestedDurationMs)),
                        RankedOffer(dear, Cost(dear, listing.requestedDurationMs)))
  {
    Interest.AccruedMonotone(cheap.principal, dear.principal, cheap.rate, dear.rate, 0, listing.requestedDurationMs,
                             listing.requestedDurationMs, listing.requestedDurationMs);
  }
}
