/** Concrete runs that show what the protocol does not promise. */
module Scenarios {
  import opened Shared
  import opened Distributions
  import opened LedgerTransaction
  import opened CustodyReceipts
  import opened Loans
  import opened Marketplace
  import opened Liquidations
  import opened Protocol
  import opened Preservation
  import opened Theorems
  import opened Collateral
  import opened Histories
  import opened Settlement
  import opened Operations
  import L = Ledger

  const Gold: Category := "GOLD"
  const Year := 31_536_000_000
  const Afterwards := Year + 50
  const Terms := Parameters(map[Gold := 10_000], 10_000, 0, 100, 0, 0, 0)

  predicate Held(s: State, holder: UserId) {
    0 in s.receipts && s.receipts[0] == Issue(0, holder, "hash", 20_000, Gold)
  }

  /** A holder can list receipt 0, and a lender can fund it, under fresh ids. */
  ghost predicate Ready(s: State, holder: UserId, lender: UserId, id: nat) {
    && !s.paused && holder != lender && Held(s, holder)
    && (forall l :: l in s.listings && LiveListing(s.listings[l]) ==> s.listings[l].receipt != 0)
    && id !in s.listings && id !in s.offerSlots && id !in s.ledger.holds && id !in s.loans
    && L.Balance(s.ledger.journal, UserAvailable(lender)) >= 10_000
  }

  function ListingOf(s: State, holder: UserId): Listing {
    Listing(holder, 0, 10_000, 1_000, Year, s.now + 100, ListingActive, [])
  }

  function FundedOffer(s: State, lender: UserId, id: nat): Offer {
    Offer(id, lender, 10_000, 1_000, Year, id, s.now + 100, s.now, OfferPending)
  }

  lemma DepositRuns(s: State, user: UserId, amount: int)
    requires amount > 0
    ensures var s' := Step(s, Deposit(user, amount)).state;
            && s' == s.(ledger := s'.ledger) && s'.ledger.holds == s.ledger.holds
            && L.Balance(s'.ledger.journal, UserAvailable(user))
                 == L.Balance(s.ledger.journal, UserAvailable(user)) + amount
            && (forall other :: other != user ==>
                  L.Balance(s'.ledger.journal, UserAvailable(other))
                    == L.Balance(s.ledger.journal, UserAvailable(other)))
  {
    DepositExactlyWhen(s, user, amount);
  }

  lemma CreationRuns(s: State, holder: UserId, lender: UserId, id: nat)
    requires Ready(s, holder, lender, id)
    ensures CreateListingStep(s, CreateListing(id, holder, 0, 10_000, 1_000, Year, 100, Terms)).state
         == s.(listings := s.listings[id := ListingOf(s, holder).(status := ListingDraft)])
  {
    assert WithinLoanToValue(10_000, 20_000, Gold, Terms).Ok?;
  }

  lemma PublicationRuns(s: State, holder: UserId, id: nat)
    requires !s.paused && Held(s, holder) && id in s.listings
             && s.listings[id] == ListingOf(s, holder).(status := ListingDraft)
    ensures PublishListingStep(s, PublishListing(id, holder)).state
              == s.(listings := s.listings[id := ListingOf(s, holder)])
  {}

  /** What placing the lender's offer on the listing writes. */
  ghost predicate OfferWritten(s: State, s': State, holder: UserId, lender: UserId, id: nat) {
    && s' == s.(ledger := s'.ledger,
                listings := s.listings[id := ListingOf(s, holder).(offers := [FundedOffer(s, lender, id)])],
                offerSlots := s.offerSlots[id := Slot(id, 0)],
                origins := s'.origins)
    && s'.ledger.holds == s.ledger.holds[id := L.FundsHold(lender, 10_000, L.HoldHeld, None)]
    && (forall other :: other != lender ==>
          L.Balance(s'.ledger.journal, UserAvailable(other)) == L.Balance(s.ledger.journal, UserAvailable(other)))
  }

  lemma OfferRuns(s: State, holder: UserId, lender: UserId, id: nat)
    requires !s.paused && Held(s, holder) && id in s.listings && s.listings[id] == ListingOf(s, holder)
    requires id !in s.offerSlots && id !in s.ledger.holds
             && L.Balance(s.ledger.journal, UserAvailable(lender)) >= 10_000
    ensures OfferWritten(s, PlaceOfferStep(s,
                                           PlaceOffer(id, lender, 10_000, 1_000, Year, s.now + 100, id, id,
                                                      Terms)).state, holder, lender, id)
  {
    assert WithinLoanToValue(10_000, 20_000, Gold, Terms).Ok?;
    HoldRuns(s.ledger, lender, 10_000, id, id);
    assert [] + [FundedOffer(s, lender, id)] == [FundedOffer(s, lender, id)];
  }

  lemma HoldRuns(ledger: L.Ledger, user: UserId, amount: int, reference: nat, h: HoldId)
    requires amount > 0 && h !in ledger.holds && L.Balance(ledger.journal, UserAvailable(user)) >= amount
    ensures var held := L.Hold(ledger, user, amount, reference, h);
            && held.Ok? && held.value.ledger.holds == ledger.holds[h := L.FundsHold(user, amount, L.HoldHeld, None)]
            && (forall other :: other != user ==>
                  L.Balance(held.value.ledger.journal, UserAvailable(other))
                    == L.Balance(ledger.journal, UserAvailable(other)))
  {
    HoldExactlyWhen(ledger, user, amount, reference, h);
  }

  lemma AcceptanceIsDue(s: State, holder: UserId, lender: UserId, id: nat)
    requires !s.paused && Held(s, holder) && id in s.listings && id !in s.loans
    requires s.listings[id] == ListingOf(s, holder).(offers := [FundedOffer(s, lender, id)])
    ensures AcceptanceConditions(s, AcceptOffer(id, id, holder, id, Terms))
  {
    assert Acceptable(s.listings[id].offers[0], s.receipts[0], AcceptOffer(id, id, holder, id, Terms), s.now);
  }

  /** The loan of a successful acceptance has the winning offer's terms. */
  lemma OriginatedTerms(s: State, holder: UserId, lender: UserId, id: nat)
    requires id in s.listings && s.listings[id] == ListingOf(s, holder).(offers := [FundedOffer(s, lender, id)])
    requires AcceptOfferStep(s, AcceptOffer(id, id, holder, id, Terms)).result.Ok?
    ensures var s' := AcceptOfferStep(s, AcceptOffer(id, id, holder, id, Terms)).state;
            id in s'.loans
            && s'.loans[id] == Loan(0, holder, lender, 10_000, 1_000, s.now, s.now + Year, s.now + Year, 0, LoanActive,
                                    None)
  {
    assert FindOffer(s.listings[id].offers, id) == Some(0);
  }

  /** A release takes nothing from anybody's spendable balance. */
  lemma ReleaseOnlyPays(ledger: L.Ledger, h: HoldId, lines: seq<Distribution>, kind: L.Kind, user: UserId)
    requires L.Release(ledger, h, lines, kind).Ok? && h in ledger.holds && ledger.holds[h].amount > 0
    ensures L.Balance(L.Release(ledger, h, lines, kind).value.ledger.journal, UserAvailable(user))
              >= L.Balance(ledger.journal, UserAvailable(user))
  {
    var row := ledger.holds[h];
    if row.status == L.HoldHeld {
      ReleasePositive(row.owner, row.amount, lines);
      ReleaseNet(row.owner, row.amount, lines, UserAvailable(user));
      L.BalanceAppend(ledger.journal, L.Transaction(kind, h, ReleaseEntries(row.owner, row.amount, lines)),
                      UserAvailable(user));
    }
  }

  lemma AcceptanceOnlyPays(s: State, c: Command, user: UserId)
    requires c.AcceptOffer? && AcceptOfferStep(s, c).result.Ok?
    requires forall h :: h in s.ledger.holds ==> s.ledger.holds[h].amount > 0
    ensures L.Balance(AcceptOfferStep(s, c).state.ledger.journal, UserAvailable(user))
              >= L.Balance(s.ledger.journal, UserAvailable(user))
  {
    var listing := s.listings[c.listingId];
    var accepted := Marketplace.AcceptOffer(listing, c.offerId, c.requestedBy, c.parameters, s.now).value;
    ReleaseOnlyPays(s.ledger, accepted.winningOffer.hold, OriginationLines(listing, accepted), L.OriginateLoanKind,
                    user);
  }

  /** What an origination on receipt 0 leaves: the receipt pledged to a new loan, and everybody but the lender no
      poorer. */
  ghost predicate OriginatedFrom(s: State, s': State, holder: UserId, lender: UserId, id: nat) {
    && s'.now == s.now && !s'.paused && s'.sales == s.sales && s'.bidSlots == s.bidSlots
    && 0 in s'.receipts
    && s'.receipts[0] == Issue(0, holder, "hash", 20_000, Gold).(status := Encumbered, encumberedBy := Some(id))
    && s'.loans
         == s.loans[id := Loan(0, holder, lender, 10_000, 1_000, s.now, s.now + Year, s.now + Year, 0, LoanActive,
                               None)]
    && s'.listings.Keys == s.listings.Keys + {id}
    && (forall l :: l in s'.listings && LiveListing(s'.listings[l]) ==> s'.listings[l].receipt != 0)
    && s'.offerSlots.Keys == s.offerSlots.Keys + {id} && s'.ledger.holds.Keys == s.ledger.holds.Keys + {id}
    && (forall other :: other != lender ==>
          L.Balance(s'.ledger.journal, UserAvailable(other)) >= L.Balance(s.ledger.journal, UserAvailable(other)))
  }

  lemma DraftIsReachable(s: State, holder: UserId, lender: UserId, id: nat)
    requires Reachable(s) && Ready(s, holder, lender, id)
    ensures Reachable(s.(listings := s.listings[id := ListingOf(s, holder).(status := ListingDraft)]))
  {
    var create := CreateListing(id, holder, 0, 10_000, 1_000, Year, 100, Terms);
    CreationRuns(s, holder, lender, id);
    StepDispatches(s, create);
    StepIsReachable(s, create);
  }

  lemma ListingRuns(s: State, holder: UserId, lender: UserId, id: nat)
    requires Reachable(s) && Ready(s, holder, lender, id)
    ensures Reachable(s.(listings := s.listings[id := ListingOf(s, holder)]))
  {
    var publish := PublishListing(id, holder);
    var t := s.(listings := s.listings[id := ListingOf(s, holder).(status := ListingDraft)]);
    DraftIsReachable(s, holder, lender, id);
    PublicationRuns(t, holder, id);
    StepDispatches(t, publish);
    StepIsReachable(t, publish);
    assert t.listings[id := ListingOf(t, holder)] == s.listings[id := ListingOf(s, holder)];
  }

  lemma OfferIsPlaced(s: State, holder: UserId, lender: UserId, id: nat) returns (s': State)
    requires Reachable(s) && !s.paused && Held(s, holder) && id in s.listings && s.listings[id] == ListingOf(s, holder)
    requires id !in s.offerSlots && id !in s.ledger.holds
             && L.Balance(s.ledger.journal, UserAvailable(lender)) >= 10_000
    ensures Reachable(s') && OfferWritten(s, s', holder, lender, id)
  {
    var offer := PlaceOffer(id, lender, 10_000, 1_000, Year, s.now + 100, id, id, Terms);
    OfferRuns(s, holder, lender, id);
    StepDispatches(s, offer);
    StepIsReachable(s, offer);
    s' := PlaceOfferStep(s, offer).state;
  }

  lemma ListedAndOffered(s: State, holder: UserId, lender: UserId, id: nat) returns (u: State)
    requires Reachable(s) && Ready(s, holder, lender, id)
    ensures Reachable(u) && OfferWritten(s, u, holder, lender, id)
  {
    var t := s.(listings := s.listings[id := ListingOf(s, holder)]);
    ListingRuns(s, holder, lender, id);
    u := OfferIsPlaced(t, holder, lender, id);
    OfferIsOffered(s, t, u, holder, lender, id);
  }

  lemma OfferIsOffered(s: State, t: State, u: State, holder: UserId, lender: UserId, id: nat)
    requires t == s.(listings := s.listings[id := ListingOf(s, holder)]) && OfferWritten(t, u, holder, lender, id)
    ensures OfferWritten(s, u, holder, lender, id)
  {
    assert t.listings[id := ListingOf(t, holder).(offers := [FundedOffer(t, lender, id)])]
        == s.listings[id := ListingOf(s, holder).(offers := [FundedOffer(s, lender, id)])];
  }

  lemma OfferedIsAccepted(s: State, t: State, holder: UserId, lender: UserId, id: nat)
    requires Ready(s, holder, lender, id) && OfferWritten(s, t, holder, lender, id) && Reachable(t)
    ensures OriginatedFrom(s, Step(t, AcceptOffer(id, id, holder, id, Terms)).state, holder, lender, id)
  {
    var accept := AcceptOffer(id, id, holder, id, Terms);
    AcceptanceIsDue(t, holder, lender, id);
    AcceptanceSucceedsExactlyWhen(t, accept);
    StepDispatches(t, accept);
    var p := WholeAcceptance(t, accept);
    OriginatedTerms(t, holder, lender, id);
    forall other
      ensures L.Balance(AcceptOfferStep(t, accept).state.ledger.journal, UserAvailable(other))
                >= L.Balance(t.ledger.journal, UserAvailable(other))
    {
      AcceptanceOnlyPays(t, accept, other);
    }
    WrittenOrigination(s, t, AcceptOfferStep(t, accept).state, p, holder, lender, id);
  }

  lemma WholeAcceptance(s: State, c: Command) returns (p: nat)
    requires Reachable(s) && c.AcceptOffer? && AcceptOfferStep(s, c).result.Ok?
    ensures AcceptanceWrites(s, AcceptOfferStep(s, c).state, c.listingId, p, c.loanId)
    ensures forall h :: h in s.ledger.holds ==> s.ledger.holds[h].amount > 0
  {
    ReachableIsSound(s);
    HoldsArePositive(s.ledger);
    p := AcceptanceIsWhole(s, c);
  }

  lemma WrittenOrigination(s: State, t: State, s': State, p: nat, holder: UserId, lender: UserId, id: nat)
    requires Ready(s, holder, lender, id) && OfferWritten(s, t, holder, lender, id)
             && AcceptanceWrites(t, s', id, p, id)
    requires s'.loans[id] == Loan(0, holder, lender, 10_000, 1_000, t.now, t.now + Year, t.now + Year, 0, LoanActive,
                                  None)
    requires forall other :: L.Balance(s'.ledger.journal, UserAvailable(other))
                               >= L.Balance(t.ledger.journal, UserAvailable(other))
    ensures OriginatedFrom(s, s', holder, lender, id)
  {
    forall l | l in s'.listings && LiveListing(s'.listings[l]) ensures s'.listings[l].receipt != 0 {
      assert l != id;
    }
  }

  lemma HoldsArePositive(ledger: L.Ledger)
    requires L.Sound(ledger)
    ensures forall h :: h in ledger.holds ==> ledger.holds[h].amount > 0
  {}

  /** A listing, its offer and its acceptance. */
  lemma Originated(s: State, holder: UserId, lender: UserId, id: nat) returns (s': State)
    requires Reachable(s) && Ready(s, holder, lender, id)
    ensures Reachable(s') && OriginatedFrom(s, s', holder, lender, id)
  {
    var offered := ListedAndOffered(s, holder, lender, id);
    OfferedIsAccepted(s, offered, holder, lender, id);
    StepIsReachable(offered, AcceptOffer(id, id, holder, id, Terms));
    s' := Step(offered, AcceptOffer(id, id, holder, id, Terms)).state;
  }

  /** Two funded lenders, and a receipt held by user 1. */
  lemma Opening() returns (s: State)
    ensures Reachable(s)
    ensures s == Initial.(ledger := s.ledger, receipts := map[0 := Issue(0, 1, "hash", 20_000, Gold)])
            && s.ledger.holds == map[]
    ensures L.Balance(s.ledger.journal, UserAvailable(2)) == 10_000
            && L.Balance(s.ledger.journal, UserAvailable(3)) == 10_000
  {
    InitialIsReachable();
    DepositRuns(Initial, 2, 10_000);
    StepIsReachable(Initial, Deposit(2, 10_000));
    var first := Step(Initial, Deposit(2, 10_000)).state;
    DepositRuns(first, 3, 10_000);
    StepIsReachable(first, Deposit(3, 10_000));
    var second := Step(first, Deposit(3, 10_000)).state;
    s := IssueRuns(second);
  }

  lemma IssueRuns(s: State) returns (s': State)
    requires Reachable(s) && s.receipts == map[]
    ensures Reachable(s') && s' == s.(receipts := map[0 := Issue(0, 1, "hash", 20_000, Gold)])
  {
    StepIsReachable(s, IssueReceipt(0, 0, 1, "hash", 20_000, Gold));
    s' := Step(s, IssueReceipt(0, 0, 1, "hash", 20_000, Gold)).state;
  }

  /** Loan 0 from user 2 on receipt 0, defaulted a while after its year. */
  ghost predicate DefaultedScene(s: State) {
    && s.now == Afterwards && !s.paused && s.sales == map[] && s.bidSlots == map[]
    && 0 in s.receipts
    && s.receipts[0] == Issue(0, 1, "hash", 20_000, Gold).(status := Encumbered, encumberedBy := Some(0))
    && s.loans == map[0 := Loan(0, 1, 2, 10_000, 1_000, 0, Year, Year, 0, LoanDefaulted, Some(Afterwards))]
    && (forall l :: l in s.listings && LiveListing(s.listings[l]) ==> s.listings[l].receipt != 0)
    && 1 !in s.listings && 1 !in s.offerSlots && 1 !in s.ledger.holds
    && L.Balance(s.ledger.journal, UserAvailable(3)) >= 10_000
  }

  lemma TickRuns(s: State, to: Instant)
    requires Reachable(s) && s.now <= to
    ensures Reachable(s.(now := to))
  {
    StepIsReachable(s, Tick(to));
  }

  lemma DefaultRuns(s: State)
    requires Reachable(s) && 0 in s.loans
             && s.loans[0] == Loan(0, 1, 2, 10_000, 1_000, 0, Year, Year, 0, LoanActive, None) && s.now == Afterwards
    ensures Reachable(s.(loans := s.loans[0 := s.loans[0].(status := LoanDefaulted, defaultedAt := Some(Afterwards))]))
  {
    StepIsReachable(s, MarkDefault(0, 2));
  }

  lemma DefaultIsReached() returns (s: State)
    ensures Reachable(s) && DefaultedScene(s)
  {
    var opening := Opening();
    var originated := Originated(opening, 1, 2, 0);
    TickRuns(originated, Afterwards);
    DefaultRuns(originated.(now := Afterwards));
    s := originated.(now := Afterwards, loans :=
      originated.loans[0 := originated.loans[0].(status := LoanDefaulted, defaultedAt := Some(Afterwards))]);
  }

  lemma ClaimRuns(s: State)
    requires Reachable(s)
    requires 0 in s.receipts
             && s.receipts[0] == Issue(0, 1, "hash", 20_000, Gold).(status := Encumbered, encumberedBy := Some(0))
    requires 0 in s.loans
             && s.loans[0] == Loan(0, 1, 2, 10_000, 1_000, 0, Year, Year, 0, LoanDefaulted, Some(Afterwards))
    ensures Reachable(s.(receipts := s.receipts[0 := Issue(0, 2, "hash", 20_000, Gold)]))
  {
    StepIsReachable(s, ClaimReceipt(0, 2));
  }

  /** The note holder claims the receipt and pledges it again for a loan of their own: the receipt now has two
      live loans, so the strong agreement needs its hypothesis. */
  lemma RepledgingBreaksTheStrongAgreement() returns (s: State)
    ensures Reachable(s) && !Strong(s.receipts, s.loans)
  {
    var defaulted := DefaultIsReached();
    ClaimRuns(defaulted);
    s := Originated(defaulted.(receipts := defaulted.receipts[0 := Issue(0, 2, "hash", 20_000, Gold)]), 2, 3, 1);
    assert LiveLoan(s.loans[0]) && LiveLoan(s.loans[1]) && s.loans[0].receipt == s.loans[1].receipt;
  }

  lemma SaleOpens(s: State) returns (s': State)
    requires Reachable(s) && DefaultedScene(s)
    ensures Reachable(s')
            && s' == s.(sales := map[0 := Sale(0, 0, 1, SaleBidding, Some(Afterwards), Some(Afterwards + 10), [],
                                               None)])
  {
    StepIsReachable(s, ScheduleLiquidation(0, 0, 1, Terms));
    var scheduled := s.(sales := map[0 := Schedule(0, 0, 1)]);
    assert Step(s, ScheduleLiquidation(0, 0, 1, Terms)).state == scheduled;
    s' := OpeningRuns(scheduled);
  }

  lemma OpeningRuns(s: State) returns (s': State)
    requires Reachable(s) && s.now == Afterwards && !s.paused && s.sales == map[0 := Schedule(0, 0, 1)]
    ensures Reachable(s')
            && s' == s.(sales := map[0 := Sale(0, 0, 1, SaleBidding, Some(Afterwards), Some(Afterwards + 10), [],
                                               None)])
  {
    StepIsReachable(s, OpenLiquidation(0, 10));
    s' := Step(s, OpenLiquidation(0, 10)).state;
  }

  lemma BidRuns(s: State) returns (s': State)
    requires Reachable(s) && !s.paused && 0 in s.sales
             && s.sales[0] == Sale(0, 0, 1, SaleBidding, Some(s.now), Some(s.now + 10), [], None)
    requires 0 !in s.bidSlots && 1 !in s.ledger.holds && L.Balance(s.ledger.journal, UserAvailable(3)) >= 10_000
    ensures Reachable(s')
    ensures s' == s.(ledger := s'.ledger, origins := s'.origins, bidSlots := s'.bidSlots,
                     sales := s.sales[0 := s.sales[0].(bids := [Bid(0, 3, 5_000, 1, s.now)])])
  {
    var bid := PlaceBid(0, 3, 5_000, 0, 1);
    HoldRuns(s.ledger, 3, 5_000, 0, 1);
    assert HighestBid([]) == None;
    assert [] + [Bid(0, 3, 5_000, 1, s.now)] == [Bid(0, 3, 5_000, 1, s.now)];
    StepDispatches(s, bid);
    StepIsReachable(s, bid);
    s' := PlaceBidStep(s, bid).state;
  }

  lemma RedemptionSticks(s: State, bids: seq<Bid>) returns (s': State)
    requires Reachable(s) && s.now == Afterwards && bids != [] && 0 in s.loans && s.loans[0].receipt == 0
    requires 0 in s.receipts && s.receipts[0] == Issue(0, 2, "hash", 20_000, Gold)
    requires 0 in s.sales
             && s.sales[0] == Sale(0, 0, 1, SaleBidding, Some(Afterwards), Some(Afterwards + 10), bids, None)
    ensures Reachable(s') && Stuck(s', 0, bids)
  {
    StepIsReachable(s, RequestRedemption(0, 2));
    var redeemed := Step(s, RequestRedemption(0, 2)).state;
    assert redeemed == s.(receipts := s.receipts[0 := s.receipts[0].(status := ReceiptReleased)]);
    TickRuns(redeemed, Afterwards + 10);
    s' := redeemed.(now := Afterwards + 10);
  }

  /** A sale in bidding whose receipt the note holder claims and redeems before the close: the high bid is stuck. */
  lemma ATrappedBidIsReachable() returns (s: State)
    ensures Reachable(s) && Stuck(s, 0, [Bid(0, 3, 5_000, 1, Afterwards)])
  {
    var defaulted := DefaultIsReached();
    var bidding := SaleOpens(defaulted);
    var bid := BidRuns(bidding);
    ClaimRuns(bid);
    s := RedemptionSticks(bid.(receipts := bid.receipts[0 := Issue(0, 2, "hash", 20_000, Gold)]),
                          [Bid(0, 3, 5_000, 1, Afterwards)]);
  }

  /** With one standing offer on a reachable book the acceptance is due; on the same book, a fee of nothing and a fee of
      everything both abort it and change nothing. */
  lemma AZeroLineAbortsTheAcceptance() returns (s: State)
    ensures Reachable(s) && AcceptanceConditions(s, AcceptOffer(0, 0, 1, 0, Terms))
    ensures Step(s, AcceptOffer(0, 0, 1, 0, Terms)).result.Ok?
    ensures forall fee :: fee == 0 || fee == 10_000 ==>
              var accept := AcceptOffer(0, 0, 1, 0, Terms.(originationFeeBasisPoints := fee));
              Step(s, accept).result.Err? && Step(s, accept).state == s
  {
    var opening := Opening();
    s := ListedAndOffered(opening, 1, 2, 0);
    AcceptanceIsDue(s, 1, 2, 0);
    AcceptanceSucceedsExactlyWhen(s, AcceptOffer(0, 0, 1, 0, Terms));
    forall fee | fee == 0 || fee == 10_000
      ensures var accept := AcceptOffer(0, 0, 1, 0, Terms.(originationFeeBasisPoints := fee));
              Step(s, accept).result.Err? && Step(s, accept).state == s
    {
      AcceptanceSucceedsExactlyWhen(s, AcceptOffer(0, 0, 1, 0, Terms.(originationFeeBasisPoints := fee)));
    }
  }

  lemma DueOverTheYear(loan: Loan)
    requires loan.principal == 10_000 && loan.rate == 1_000 && loan.startedAt == 0 && loan.maturesAt == Year
    ensures AmountDue(loan, 0) == 10_000 && AmountDue(loan, Year) == 11_000
  {}

  /** A quote dated a year ahead is refused as stale today and honoured when the year is over. */
  lemma AFutureQuoteBecomesFresh() returns (s: State, later: State)
    ensures Reachable(s) && s.now == 0
    ensures Step(s, RepayLoan(0, 1, 11_000, Year)) == Outcome(s, Err(PayoffQuoteStale))
    ensures Reachable(later) && later == Step(Step(s, Deposit(1, 20_000)).state, Tick(Year)).state
    ensures Step(later, RepayLoan(0, 1, 11_000, Year)).result == Ok(11_000)
  {
    var opening := Opening();
    s := Originated(opening, 1, 2, 0);
    DueOverTheYear(s.loans[0]);
    StepDispatches(s, RepayLoan(0, 1, 11_000, Year));
    ReachableIsSound(s);
    DepositRuns(s, 1, 20_000);
    StepIsReachable(s, Deposit(1, 20_000));
    var funded := Step(s, Deposit(1, 20_000)).state;
    TickRuns(funded, Year);
    StepDispatches(funded, Tick(Year));
    later := funded.(now := Year);
    RepayLoanExactlyWhen(later, 0, 1, 11_000, Year);
    RepaymentChargesTheQuote(later, RepayLoan(0, 1, 11_000, Year), 11_000);
  }
}
