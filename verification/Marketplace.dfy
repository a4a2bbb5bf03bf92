/** The listing aggregate and its offers. */
module Marketplace {
  import opened Shared
  import opened Money
  import opened CustodyReceipts
  import opened Loans

  type OfferId = nat
  type HoldId = nat

  datatype Parameters = Parameters(
    loanToValueCaps: map<Category, nat>,
    maxRate: nat,
    minimumOfferLifetimeMs: int,
    originationFeeBasisPoints: nat,
    liquidationFeeBasisPoints: nat,
    gracePeriodMs: int,
    statutoryHoldingPeriodMs: int)

  datatype OfferStatus = OfferPending | OfferAccepted | OfferWithdrawn | OfferExpired | OfferSuperseded

  datatype Offer = Offer(
    id: OfferId,
    lender: UserId,
    principal: int,
    rate: nat,
    durationMs: int,
    hold: HoldId,
    expiresAt: Instant,
    createdAt: Instant,
    status: OfferStatus)

  datatype ListingStatus = ListingDraft | ListingActive | ListingMatched | ListingCancelled | ListingLapsed

  datatype Listing = Listing(
    borrower: UserId,
    receipt: ReceiptId,
    requestedPrincipal: int,
    maxRate: nat,
    requestedDurationMs: int,
    expiresAt: Instant,
    status: ListingStatus,
    offers: seq<Offer>)

  predicate LiveListing(listing: Listing) {
    listing.status == ListingDraft || listing.status == ListingActive
  }

  /** Every event leaves PENDING and nothing leaves anything else. */
  function Transition(offer: Offer, target: OfferStatus): Result<Offer> {
    if offer.status == OfferPending then Ok(offer.(status := target)) else Err(OfferNotPending)
  }

  /** Principal at most the category's share of the appraisal; a category without a cap is refused loudly. */
  function WithinLoanToValue(principal: int, appraisedValue: int, category: Category,
                             parameters: Parameters): Result<()> {
    if category !in parameters.loanToValueCaps then Err(LoanToValueCapMissing)
    else if principal > MultiplyByBasisPoints(appraisedValue, parameters.loanToValueCaps[category])
         then Err(LoanToValueExceeded)
    else Ok(())
  }

  function Draft(listing: Listing, now: Instant): Result<Listing> {
    if now > listing.expiresAt then Err(ListingExpired) else Ok(listing.(status := ListingDraft, offers := []))
  }

  function Publish(listing: Listing, now: Instant): Result<Listing> {
    if listing.status != ListingDraft then Err(ListingNotDraft)
    else if now > listing.expiresAt then Err(ListingExpired)
    else Ok(listing.(status := ListingActive))
  }

  function AcceptingOffers(listing: Listing, now: Instant): Result<()> {
    if listing.status != ListingActive then Err(ListingNotActive)
    else if now > listing.expiresAt then Err(ListingExpired)
    else Ok(())
  }

  function AddOffer(listing: Listing, offer: Offer, appraisedValue: int, category: Category, parameters: Parameters,
                    now: Instant): Result<Listing> {
    var accepting := AcceptingOffers(listing, now);
    if accepting.Err? then Err(accepting.error)
    else if offer.rate > listing.maxRate || offer.rate > parameters.maxRate then Err(RateAboveMaximum)
    else
      var within := WithinLoanToValue(offer.principal, appraisedValue, category, parameters);
      if within.Err? then Err(within.error) else Ok(listing.(offers := listing.offers + [offer]))
  }

  /** The position of the first offer with an id. */
  function FindOffer(offers: seq<Offer>, id: OfferId): (found: Option<nat>)
    ensures found.Some? ==> found.value < |offers| && offers[found.value].id == id
    ensures found.None? <==> forall i :: 0 <= i < |offers| ==> offers[i].id != id
  {
    if offers == [] then None
    else
      var earlier := FindOffer(offers[..|offers| - 1], id);
      if earlier.Some? then earlier
      else if offers[|offers| - 1].id == id then Some(|offers| - 1)
      else None
  }

  function ReplaceOffer(offers: seq<Offer>, updated: Offer): seq<Offer> {
    seq(|offers|, i requires 0 <= i < |offers| => if offers[i].id == updated.id then updated else offers[i])
  }

  datatype WithdrawnOffer = WithdrawnOffer(listing: Listing, offer: Offer)

  function WithdrawOffer(listing: Listing, id: OfferId, requestedBy: UserId, parameters: Parameters,
                         now: Instant): Result<WithdrawnOffer> {
    var found := FindOffer(listing.offers, id);
    if found.None? then Err(OfferNotFound)
    else
      var offer := listing.offers[found.value];
      if offer.lender != requestedBy then Err(NotResourceOwner)
      else if now - offer.createdAt < parameters.minimumOfferLifetimeMs then Err(OfferWithdrawalTooEarly)
      else
        match Transition(offer, OfferWithdrawn)
        case Err(error) => Err(error)
        case Ok(withdrawn) => Ok(WithdrawnOffer(listing.(offers := ReplaceOffer(listing.offers, withdrawn)), withdrawn))
  }

  function Superseded(offer: Offer): Offer {
    if offer.status == OfferPending then offer.(status := OfferSuperseded) else offer
  }

  /** The offers after an acceptance: the winner as accepted, every other pending offer superseded. */
  function AcceptAmong(offers: seq<Offer>, winner: Offer): seq<Offer> {
    seq(|offers|, i requires 0 <= i < |offers| => if offers[i].id == winner.id then winner else Superseded(offers[i]))
  }

  function SupersedeAll(offers: seq<Offer>): seq<Offer> {
    seq(|offers|, i requires 0 <= i < |offers| => Superseded(offers[i]))
  }

  /** The ids of the pending offers other than the winner's, in the order of the book. */
  function SupersededIds(offers: seq<Offer>, winner: Option<OfferId>): seq<OfferId> {
    if offers == [] then []
    else
      var last := offers[|offers| - 1];
      SupersededIds(offers[..|offers| - 1], winner)
      + (if last.status == OfferPending && winner != Some(last.id) then [last.id] else [])
  }

  datatype AcceptedOffer = AcceptedOffer(
    listing: Listing,
    winningOffer: Offer,
    originationFee: int,
    disbursement: int,
    supersededOfferIds: seq<OfferId>)

  function AcceptOffer(listing: Listing, id: OfferId, requestedBy: UserId, parameters: Parameters,
                       now: Instant): Result<AcceptedOffer> {
    if listing.status == ListingMatched then Err(ListingAlreadyMatched)
    else
      var accepting := AcceptingOffers(listing, now);
      if accepting.Err? then Err(accepting.error)
      else if requestedBy != listing.borrower then Err(NotResourceOwner)
      else
        var found := FindOffer(listing.offers, id);
        if found.None? then Err(OfferNotFound)
        else
          var offer := listing.offers[found.value];
          if now > offer.expiresAt then Err(OfferHasExpired)
          else
            match Transition(offer, OfferAccepted)
            case Err(error) => Err(error)
            case Ok(accepted) =>
              var fee := MultiplyByBasisPoints(accepted.principal, parameters.originationFeeBasisPoints);
              Ok(AcceptedOffer(
                   listing.(status := ListingMatched, offers := AcceptAmong(listing.offers, accepted)),
                   accepted, fee, accepted.principal - fee, SupersededIds(listing.offers, Some(id))))
  }

  datatype CancelledListing = CancelledListing(listing: Listing, supersededOfferIds: seq<OfferId>)

  function Cancel(listing: Listing, requestedBy: UserId): Result<CancelledListing> {
    if !LiveListing(listing) then Err(ListingNotActive)
    else if requestedBy != listing.borrower then Err(NotResourceOwner)
    else Ok(CancelledListing(listing.(status := ListingCancelled, offers := SupersedeAll(listing.offers)),
                             SupersededIds(listing.offers, None)))
  }

  // ----- the two operations that build the superseded list while mapping -----

  /** Maps the offers and collects the ids it supersedes in one pass. */
  method SupersedeOthers(offers: seq<Offer>, winner: Option<Offer>) returns (mapped: seq<Offer>, ids: seq<OfferId>)
    ensures mapped == if winner.Some? then AcceptAmong(offers, winner.value) else SupersedeAll(offers)
    ensures ids == SupersededIds(offers, if winner.Some? then Some(winner.value.id) else None)
  {
    mapped, ids := [], [];
    ghost var winnerId := if winner.Some? then Some(winner.value.id) else None;
    for i := 0 to |offers|
      invariant |mapped| == i
      invariant forall k :: 0 <= k < i ==>
                  mapped[k]
                    == if winner.Some? && offers[k].id == winner.value.id then winner.value else Superseded(offers[k])
      invariant ids == SupersededIds(offers[..i], winnerId)
    {
      var candidate := offers[i];
      assert offers[..i + 1][..i] == offers[..i];
      if winner.Some? && candidate.id == winner.value.id {
        mapped := mapped + [winner.value];
      } else {
        if candidate.status == OfferPending {
          ids := ids + [candidate.id];
          mapped := mapped + [candidate.(status := OfferSuperseded)];
        } else {
          mapped := mapped + [candidate];
        }
      }
    }
    assert offers[..|offers|] == offers;
  }

  /** The acceptance as the aggregate performs it. */
  method AcceptOfferOn(listing: Listing, id: OfferId, requestedBy: UserId, parameters: Parameters, now: Instant)
    returns (outcome: Result<AcceptedOffer>)
    ensures outcome == AcceptOffer(listing, id, requestedBy, parameters, now)
  {
    if listing.status == ListingMatched {
      return Err(ListingAlreadyMatched);
    }
    var accepting := AcceptingOffers(listing, now);
    if accepting.Err? {
      return Err(accepting.error);
    }
    if requestedBy != listing.borrower {
      return Err(NotResourceOwner);
    }
    var found := FindOffer(listing.offers, id);
    if found.None? {
      return Err(OfferNotFound);
    }
    var offer := listing.offers[found.value];
    if now > offer.expiresAt {
      return Err(OfferHasExpired);
    }
    var transitioned := Transition(offer, OfferAccepted);
    if transitioned.Err? {
      return Err(transitioned.error);
    }
    var winner := transitioned.value;
    var offers, superseded := SupersedeOthers(listing.offers, Some(winner));
    var fee := MultiplyByBasisPoints(winner.principal, parameters.originationFeeBasisPoints);
    return Ok(AcceptedOffer(listing.(status := ListingMatched, offers := offers), winner, fee, winner.principal - fee,
                            superseded));
  }

  /** The cancellation as the aggregate performs it. */
  method CancelOn(listing: Listing, requestedBy: UserId) returns (outcome: Result<CancelledListing>)
    ensures outcome == Cancel(listing, requestedBy)
  {
    if !LiveListing(listing) {
      return Err(ListingNotActive);
    }
    if requestedBy != listing.borrower {
      return Err(NotResourceOwner);
    }
    var offers, superseded := SupersedeOthers(listing.offers, None);
    return Ok(CancelledListing(listing.(status := ListingCancelled, offers := offers), superseded));
  }

  // ----- what acceptance and cancellation mean for the book -----

  ghost predicate DistinctIds(offers: seq<Offer>) {
    forall i, j :: 0 <= i < j < |offers| ==> offers[i].id != offers[j].id
  }

  lemma {:induction false} SupersededIdsAreThePending(offers: seq<Offer>, winner: Option<OfferId>, id: OfferId)
    ensures id in SupersededIds(offers, winner) <==>
            exists i :: 0 <= i < |offers| && offers[i].id == id && offers[i].status == OfferPending
                        && winner != Some(id)
  {
    if offers != [] {
      var init := offers[..|offers| - 1];
      SupersededIdsAreThePending(init, winner, id);
      if id in SupersededIds(init, winner) {
        var i :| 0 <= i < |init| && init[i].id == id && init[i].status == OfferPending && winner != Some(id);
        assert offers[i] == init[i];
      }
      if i :| 0 <= i < |offers| && offers[i].id == id && offers[i].status == OfferPending && winner != Some(id) {
        assert i < |init| ==> init[i] == offers[i];
      }
    }
  }

  /** The loan-to-value cap is the category's share of the appraisal rounded down, so a principal is within it exactly
      when it is within the share itself; a category without a cap admits nothing. */
  lemma WithinCapExactlyWhen(principal: int, appraisedValue: int, category: Category, parameters: Parameters)
    requires principal > 0 || appraisedValue >= 0
    ensures WithinLoanToValue(principal, appraisedValue, category, parameters).Ok?
            <==> category in parameters.loanToValueCaps
                 && principal * BasisPointScale <= appraisedValue * parameters.loanToValueCaps[category]
  {
    if category in parameters.loanToValueCaps {
      var cap := parameters.loanToValueCaps[category];
      if appraisedValue >= 0 {
        assert appraisedValue * cap >= 0;
      } else {
        assert appraisedValue * cap <= 0;
      }
    }
  }

  /** An offer is accepted exactly by the listing's borrower, while both listing and offer are open and unexpired;
      the fee is the share of the principal rounded down. */
  lemma AcceptOfferExactlyWhen(listing: Listing, i: nat, requestedBy: UserId, parameters: Parameters, now: Instant)
    requires DistinctIds(listing.offers) && i < |listing.offers|
    ensures var offer := listing.offers[i];
            var answer := AcceptOffer(listing, offer.id, requestedBy, parameters, now);
            && (answer.Ok? <==>
                  && listing.status == ListingActive && now <= listing.expiresAt && requestedBy == listing.borrower
                  && offer.status == OfferPending && now <= offer.expiresAt)
            && (answer.Ok? && offer.principal >= 0 ==>
                  && answer.value.originationFee
                       == offer.principal * parameters.originationFeeBasisPoints / BasisPointScale
                  && answer.value.disbursement == offer.principal - answer.value.originationFee
                  && answer.value.winningOffer == offer.(status := OfferAccepted))
  {
    var found := FindOffer(listing.offers, listing.offers[i].id);
    assert found == Some(i);
    if listing.offers[i].principal >= 0 {
      assert listing.offers[i].principal * parameters.originationFeeBasisPoints >= 0;
    }
  }

  /** An acceptance splits the principal exactly, accepts the named offer and no other, leaves nothing
      pending, supersedes exactly the other pending offers and disturbs no settled one. */
  lemma AcceptanceSettlesTheBook(listing: Listing, id: OfferId, requestedBy: UserId, parameters: Parameters,
                                 now: Instant)
    requires AcceptOffer(listing, id, requestedBy, parameters, now).Ok?
    requires DistinctIds(listing.offers)
    ensures var accepted := AcceptOffer(listing, id, requestedBy, parameters, now).value;
            var before, after := listing.offers, accepted.listing.offers;
            && |after| == |before|
            && accepted.originationFee + accepted.disbursement == accepted.winningOffer.principal
            && accepted.winningOffer.id == id && accepted.winningOffer in after
            && (forall i :: 0 <= i < |after| ==>
                  && after[i].status != OfferPending
                  && after[i] == before[i].(status := after[i].status)
                  && (before[i].id == id <==> before[i].status == OfferPending && after[i].status == OfferAccepted)
                  && (before[i].status != OfferPending ==> after[i] == before[i])
                  && (after[i].id in accepted.supersededOfferIds
                      <==> before[i].status == OfferPending && after[i].status == OfferSuperseded))
  {
    var accepted := AcceptOffer(listing, id, requestedBy, parameters, now).value;
    var before, after := listing.offers, accepted.listing.offers;
    var w := FindOffer(before, id).value;
    assert after[w] == accepted.winningOffer;
    forall i | 0 <= i < |after|
      ensures after[i].id in accepted.supersededOfferIds
              <==> before[i].status == OfferPending && after[i].status == OfferSuperseded
      ensures before[i].id == id <==> i == w
    {
      SupersededIdsAreThePending(before, Some(id), before[i].id);
      if before[i].id in accepted.supersededOfferIds {
        var k :| 0 <= k < |before| && before[k].id == before[i].id && before[k].status == OfferPending;
        assert k == i;
      }
    }
  }
}
