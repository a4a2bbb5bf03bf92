/** When each use case succeeds, in terms a caller can check beforehand, and what it then does to balances,
    offers, bids, loans and receipts. */
module Operations {
  import opened Shared
  import opened Money
  import opened Distributions
  import opened LedgerTransaction
  import opened CustodyReceipts
  import opened Loans
  import opened Marketplace
  import opened Liquidations
  import opened Protocol
  import opened Invariant
  import opened Preservation
  import opened Theorems
  import L = Ledger

  function Spendable(s: State, user: UserId): int {
    L.Balance(s.ledger.journal, UserAvailable(user))
  }

  /** One transaction moved `amount` between two accounts and nothing else. */
  ghost predicate Moved(before: L.Ledger, after: L.Ledger, from: Account, to: Account, amount: int) {
    forall account :: L.Balance(after.journal, account)
                   == L.Balance(before.journal, account) - (if account == from then amount else 0)
                   + (if account == to then amount else 0)
  }

  lemma PairMoves(before: L.Ledger, after: L.Ledger, kind: L.Kind, reference: nat, from: Account, to: Account,
                  amount: int)
    requires after.journal == before.journal
                              + [L.Transaction(kind, reference, [Debit(from, amount), Credit(to, amount)])]
    ensures Moved(before, after, from, to, amount)
  {
    var pair := [Debit(from, amount), Credit(to, amount)];
    forall account
      ensures L.Balance(after.journal, account)
           == L.Balance(before.journal, account) - (if account == from then amount else 0)
           + (if account == to then amount else 0)
    {
      NetOfPair(pair[0], pair[1], account);
      L.BalanceAppend(before.journal, L.Transaction(kind, reference, pair), account);
    }
  }

  // ----- custody -----

  /** A receipt enters under a new id, in the vault and free. */
  lemma IssueExactlyWhen(s: State, r: ReceiptId, vault: VaultId, holder: UserId, hash: string, value: int,
                         category: Category)
    ensures var c := IssueReceipt(r, vault, holder, hash, value, category);
            && (Step(s, c).result.Ok? <==> r !in s.receipts)
            && Step(s, c).state == if r in s.receipts then s
                                   else s.(receipts := s.receipts[r :=
                                     Receipt(vault, holder, hash, value, category, InVault, None)])
  {
    StepDispatches(s, IssueReceipt(r, vault, holder, hash, value, category));
  }

  // ----- wallet -----

  lemma DepositExactlyWhen(s: State, user: UserId, amount: int)
    ensures var c := Deposit(user, amount);
            && (Step(s, c).result.Ok? <==> amount > 0)
            && (Step(s, c).result.Ok? ==>
                  && Step(s, c).state.ledger.journal
                     == s.ledger.journal
                     + [L.Transaction(L.DepositKind, 0,
                                      [Debit(FloatAccount, amount), Credit(UserAvailable(user), amount)])]
                  && Moved(s.ledger, Step(s, c).state.ledger, FloatAccount, UserAvailable(user), amount))
            && Step(s, c).state == s.(ledger := Step(s, c).state.ledger)
            && Step(s, c).state.ledger.holds == s.ledger.holds
  {
    var c := Deposit(user, amount);
    PairBuildable(FloatAccount, UserAvailable(user), amount);
    if amount > 0 {
      PairMoves(s.ledger, DepositStep(s, c).state.ledger, L.DepositKind, 0, FloatAccount, UserAvailable(user), amount);
    }
  }

  lemma WithdrawExactlyWhen(s: State, user: UserId, amount: int)
    ensures var c := Withdraw(user, amount);
            && (Step(s, c).result.Ok? <==> 0 < amount <= Spendable(s, user))
            && (Step(s, c).result.Ok? ==>
                  && Step(s, c).state.ledger.journal
                     == s.ledger.journal
                     + [L.Transaction(L.WithdrawKind, 0,
                                      [Debit(UserAvailable(user), amount), Credit(FloatAccount, amount)])]
                  && Moved(s.ledger, Step(s, c).state.ledger, UserAvailable(user), FloatAccount, amount))
            && Step(s, c).state == s.(ledger := Step(s, c).state.ledger)
            && Step(s, c).state.ledger.holds == s.ledger.holds
  {
    var c := Withdraw(user, amount);
    PairBuildable(UserAvailable(user), FloatAccount, amount);
    if 0 < amount <= Spendable(s, user) {
      PairMoves(s.ledger, WithdrawStep(s, c).state.ledger, L.WithdrawKind, 0, UserAvailable(user), FloatAccount,
                amount);
    }
  }

  /** A hold is taken exactly when the amount is positive and spendable; it moves that amount aside. */
  lemma HoldExactlyWhen(ledger: L.Ledger, user: UserId, amount: int, reference: nat, h: HoldId)
    ensures var held := L.Hold(ledger, user, amount, reference, h);
            && (held.Ok? <==> 0 < amount <= L.Balance(ledger.journal, UserAvailable(user)) && h !in ledger.holds)
            && (held.Ok? ==>
                  && held.value.ledger.holds == ledger.holds[h := L.FundsHold(user, amount, L.HoldHeld, None)]
                  && Moved(ledger, held.value.ledger, UserAvailable(user), UserHeld(user), amount))
  {
    PairBuildable(UserAvailable(user), UserHeld(user), amount);
    var held := L.Hold(ledger, user, amount, reference, h);
    if held.Ok? {
      PairMoves(ledger, held.value.ledger, L.HoldFundsKind, reference, UserAvailable(user), UserHeld(user), amount);
    }
  }

  // ----- offers -----

  /** The rates and the loan-to-value cap allow the principal: it is at most the appraisal's share, rounded down. */
  predicate Fundable(principal: int, rate: nat, receipt: Receipt, parameters: Parameters) {
    && rate <= parameters.maxRate
    && receipt.category in parameters.loanToValueCaps
    && principal * BasisPointScale <= receipt.appraisedValue * parameters.loanToValueCaps[receipt.category]
  }

  ghost predicate OfferConditions(s: State, c: Command)
    requires c.PlaceOffer?
  {
    && !s.paused
    && c.listingId in s.listings && s.listings[c.listingId].receipt in s.receipts
    && var listing := s.listings[c.listingId];
       && listing.status == ListingActive && s.now <= listing.expiresAt
       && c.rate <= listing.maxRate
       && Fundable(c.principal, c.rate, s.receipts[listing.receipt], c.parameters)
       && 0 < c.principal <= Spendable(s, c.requestedBy)
       && c.holdId !in s.ledger.holds && c.offerId !in s.offerSlots
  }

  /** The offer stands last in its listing's book, and nothing else of the listing or any other table has changed. */
  ghost predicate OfferPlaced(s: State, s': State, c: Command)
    requires c.PlaceOffer?
  {
    && c.listingId in s.listings
    && var listing := s.listings[c.listingId];
       var slot := Slot(c.listingId, |listing.offers|);
       var offer := Offer(c.offerId, c.requestedBy, c.principal, c.rate, c.durationMs, c.holdId, c.expiresAt, s.now,
                          OfferPending);
       s' == s.(
         ledger := s'.ledger,
         listings := s.listings[c.listingId := listing.(offers := listing.offers + [offer])],
         offerSlots := s.offerSlots[c.offerId := slot],
         origins := s.origins[c.holdId := OfferOrigin(slot)])
  }

  /** An offer is placed exactly when the listing takes offers on those terms and the lender can spend the
      principal; then the principal is set aside under the offer's hold and the offer stands last in the book. */
  lemma PlaceOfferExactlyWhen(s: State, c: Command)
    requires c.PlaceOffer?
    ensures Step(s, c).result.Ok? <==> OfferConditions(s, c)
    ensures Step(s, c).result.Ok? ==>
              var s' := Step(s, c).state;
              && Moved(s.ledger, s'.ledger, UserAvailable(c.requestedBy), UserHeld(c.requestedBy), c.principal)
              && s'.ledger.holds
                   == s.ledger.holds[c.holdId := L.FundsHold(c.requestedBy, c.principal, L.HoldHeld, None)]
              && OfferPlaced(s, s', c)
  {
    HoldExactlyWhen(s.ledger, c.requestedBy, c.principal, c.listingId, c.holdId);
    if c.principal > 0 && c.listingId in s.listings && s.listings[c.listingId].receipt in s.receipts {
      var receipt := s.receipts[s.listings[c.listingId].receipt];
      WithinCapExactlyWhen(c.principal, receipt.appraisedValue, receipt.category, c.parameters);
    }
    StepDispatches(s, c);
  }

  /** The offer at a position became WITHDRAWN, and but for the ledger nothing else has changed. */
  predicate WithdrawnAt(s: State, s': State, l: ListingId, i: nat)
    requires l in s.listings && i < |s.listings[l].offers|
  {
    var listing := s.listings[l];
    var withdrawn := listing.offers[i].(status := OfferWithdrawn);
    s' == s.(ledger := s'.ledger, listings := s.listings[l := listing.(offers := listing.offers[i := withdrawn])])
  }

  /** An offer is withdrawn exactly when its lender asks, it is still pending, and it has stood for the minimum
      lifetime; the principal comes back unless it has already been reclaimed. */
  lemma WithdrawOfferExactlyWhen(s: State, l: ListingId, i: nat, requestedBy: UserId, parameters: Parameters)
    requires Reachable(s) && l in s.listings && i < |s.listings[l].offers|
    ensures var offer := s.listings[l].offers[i];
            var c := WithdrawOffer(l, offer.id, requestedBy, parameters);
            var s' := Step(s, c).state;
            && offer.hold in s.ledger.holds
            && (Step(s, c).result.Ok? <==>
                  requestedBy == offer.lender && offer.status == OfferPending
                  && s.now - offer.createdAt >= parameters.minimumOfferLifetimeMs)
            && (Step(s, c).result.Ok? ==>
                  && WithdrawnAt(s, s', l, i)
                  && Spendable(s', offer.lender) == Spendable(s, offer.lender)
                       + (if s.ledger.holds[offer.hold].status == L.HoldHeld then offer.principal else 0))
  {
    ReachableIsSound(s);
    OfferIsFound(s, l, i);
    BooksAreWellFormed(s, l);
    var offer := s.listings[l].offers[i];
    if s.ledger.holds[offer.hold].status != L.HoldReleased {
      RefundAnswers(s.ledger, offer.hold);
    }
    WithdrawOfferAnswers(s, l, i, requestedBy, parameters);
  }

  lemma WithdrawOfferAnswers(s: State, l: ListingId, i: nat, requestedBy: UserId, parameters: Parameters)
    requires l in s.listings && i < |s.listings[l].offers| && DistinctIds(s.listings[l].offers)
    requires FindOffer(s.listings[l].offers, s.listings[l].offers[i].id) == Some(i)
    requires s.listings[l].offers[i].status == OfferPending ==> L.Refund(s.ledger, s.listings[l].offers[i].hold).Ok?
    ensures var offer := s.listings[l].offers[i];
            var c := WithdrawOffer(l, offer.id, requestedBy, parameters);
            && (Step(s, c).result.Ok? <==>
                  requestedBy == offer.lender && offer.status == OfferPending
                  && s.now - offer.createdAt >= parameters.minimumOfferLifetimeMs)
            && (Step(s, c).result.Ok? ==>
                  && L.Refund(s.ledger, offer.hold).Ok?
                  && Step(s, c).state.ledger == L.Refund(s.ledger, offer.hold).value.ledger
                  && WithdrawnAt(s, Step(s, c).state, l, i))
  {
    var offers := s.listings[l].offers;
    StepDispatches(s, WithdrawOffer(l, offers[i].id, requestedBy, parameters));
    var withdrawn := offers[i].(status := OfferWithdrawn);
    assert ReplaceOffer(offers, withdrawn) == offers[i := withdrawn];
  }

  /** A hold is reclaimed exactly by the offer's lender once the offer is superseded or has expired while pending,
      whether or not the system is paused. */
  lemma ReclaimHoldExactlyWhen(s: State, l: ListingId, i: nat, requestedBy: UserId)
    requires Reachable(s) && l in s.listings && i < |s.listings[l].offers|
    ensures var offer := s.listings[l].offers[i];
            Step(s, ReclaimHold(offer.id, requestedBy)).result.Ok? <==>
              requestedBy == offer.lender
              && (offer.status == OfferSuperseded || (offer.status == OfferPending && s.now > offer.expiresAt))
  {
    ReachableIsSound(s);
    OfferIsFound(s, l, i);
    var offer := s.listings[l].offers[i];
    if s.ledger.holds[offer.hold].status != L.HoldReleased {
      RefundAnswers(s.ledger, offer.hold);
    }
    ReclaimHoldAnswers(s, l, i, requestedBy);
  }

  lemma ReclaimHoldAnswers(s: State, l: ListingId, i: nat, requestedBy: UserId)
    requires l in s.listings && i < |s.listings[l].offers|
    requires var offer := s.listings[l].offers[i];
             && FindOffer(s.listings[l].offers, offer.id) == Some(i)
             && offer.id in s.offerSlots && s.offerSlots[offer.id].parent == l && offer.status != OfferExpired
             && (HoldReclaimable(offer, s.now) ==> L.Refund(s.ledger, offer.hold).Ok?)
    ensures var offer := s.listings[l].offers[i];
            Step(s, ReclaimHold(offer.id, requestedBy)).result.Ok? <==>
              requestedBy == offer.lender
              && (offer.status == OfferSuperseded || (offer.status == OfferPending && s.now > offer.expiresAt))
  {
    var c := ReclaimHold(s.listings[l].offers[i].id, requestedBy);
    StepDispatches(s, c);
  }

  /** A successful acceptance posts one transaction: the whole principal leaves the lender's held account, the fee
      rounded down goes to the platform and the rest to the borrower. */
  lemma AcceptancePostsOneTransaction(s: State, c: Command) returns (i: nat)
    requires Reachable(s) && c.AcceptOffer? && Step(s, c).result.Ok?
    ensures c.listingId in s.listings && i < |s.listings[c.listingId].offers|
    ensures var listing := s.listings[c.listingId];
            var offer := listing.offers[i];
            var s' := Step(s, c).state;
            var fee := offer.principal * c.parameters.originationFeeBasisPoints / BasisPointScale;
            && offer.id == c.offerId && offer.status == OfferPending
            && s'.ledger.journal == s.ledger.journal
                 + [L.Transaction(L.OriginateLoanKind, offer.hold,
                                  [Debit(UserHeld(offer.lender), offer.principal),
                                   Credit(UserAvailable(listing.borrower), offer.principal - fee),
                                   Credit(FeeRevenueAccount, fee)])]
            && c.loanId in s'.loans
            && s'.loans[c.loanId] == Loan(
                 listing.receipt, listing.borrower, offer.lender, offer.principal, offer.rate, s.now,
                 s.now + offer.durationMs, s.now + offer.durationMs + c.parameters.gracePeriodMs,
                 c.parameters.liquidationFeeBasisPoints, LoanActive, None)
  {
    ReachableIsSound(s);
    i := AcceptedIsPending(s, c);
    PendingIsHeld(s, c.listingId, i);
    OfferIsFound(s, c.listingId, i);
    assert s.ledger.holds[s.listings[c.listingId].offers[i].hold].amount > 0;
    AcceptanceTransaction(s, c, i);
  }

  lemma AcceptanceTransaction(s: State, c: Command, i: nat)
    requires c.AcceptOffer? && Step(s, c).result.Ok?
    requires c.listingId in s.listings && i < |s.listings[c.listingId].offers|
    requires var offer := s.listings[c.listingId].offers[i];
             && FindOffer(s.listings[c.listingId].offers, c.offerId) == Some(i) && offer.status == OfferPending
             && offer.hold in s.ledger.holds && offer.principal > 0
             && s.ledger.holds[offer.hold] == L.FundsHold(offer.lender, offer.principal, L.HoldHeld, None)
    ensures var listing := s.listings[c.listingId];
            var offer := listing.offers[i];
            var s' := Step(s, c).state;
            var fee := offer.principal * c.parameters.originationFeeBasisPoints / BasisPointScale;
            && s'.ledger.journal == s.ledger.journal
                 + [L.Transaction(L.OriginateLoanKind, offer.hold,
                                  [Debit(UserHeld(offer.lender), offer.principal),
                                   Credit(UserAvailable(listing.borrower), offer.principal - fee),
                                   Credit(FeeRevenueAccount, fee)])]
            && c.loanId in s'.loans
            && s'.loans[c.loanId] == Loan(
                 listing.receipt, listing.borrower, offer.lender, offer.principal, offer.rate, s.now,
                 s.now + offer.durationMs, s.now + offer.durationMs + c.parameters.gracePeriodMs,
                 c.parameters.liquidationFeeBasisPoints, LoanActive, None)
  {
    var listing := s.listings[c.listingId];
    var offer := listing.offers[i];
    var accepted := Marketplace.AcceptOffer(listing, c.offerId, c.requestedBy, c.parameters, s.now).value;
    StepDispatches(s, c);
    assert offer.principal * c.parameters.originationFeeBasisPoints >= 0;
    TwoLineRelease(offer.lender, offer.principal, listing.borrower, accepted.disbursement, accepted.originationFee);
  }

  lemma TwoLineRelease(lender: UserId, principal: int, borrower: UserId, disbursement: int, fee: int)
    ensures ReleaseEntries(lender, principal,
                           [Distribution(User(borrower), disbursement), Distribution(PlatformFeeRevenue, fee)])
         == [Debit(UserHeld(lender), principal), Credit(UserAvailable(borrower), disbursement),
             Credit(FeeRevenueAccount, fee)]
  {
    CreditsShape([Distribution(User(borrower), disbursement), Distribution(PlatformFeeRevenue, fee)]);
  }

  // ----- listings -----

  ghost predicate ListingConditions(s: State, c: Command)
    requires c.CreateListing?
  {
    && !s.paused
    && c.receiptId in s.receipts && c.listingId !in s.listings
    && var receipt := s.receipts[c.receiptId];
       && receipt.holder == c.requestedBy && receipt.status == InVault
       && (forall l :: l in s.listings && s.listings[l].receipt == c.receiptId ==>
             s.listings[l].status != ListingDraft && s.listings[l].status != ListingActive)
       && Fundable(c.principal, c.rate, receipt, c.parameters)
       && c.lifetimeMs >= 0
  }

  /** A listing is drafted exactly for the holder of a receipt in the vault that has no live listing. */
  lemma CreateListingExactlyWhen(s: State, c: Command)
    requires c.CreateListing?
             && (c.receiptId in s.receipts ==> c.principal > 0 || s.receipts[c.receiptId].appraisedValue >= 0)
    ensures Step(s, c).result.Ok? <==> ListingConditions(s, c)
    ensures Step(s, c).result.Ok? ==>
              Step(s, c).state == s.(listings := s.listings[c.listingId :=
                Listing(c.requestedBy, c.receiptId, c.principal, c.rate, c.durationMs, s.now + c.lifetimeMs,
                        ListingDraft, [])])
  {
    if c.receiptId in s.receipts {
      var receipt := s.receipts[c.receiptId];
      WithinCapExactlyWhen(c.principal, receipt.appraisedValue, receipt.category, c.parameters);
    }
    StepDispatches(s, c);
  }

  /** A draft is published exactly by its borrower, while they still hold the receipt in the vault and before it
      expires; a listing is cancelled exactly by its borrower while it is live, and then no offer is left pending. */
  lemma PublishAndCancelExactlyWhen(s: State, l: ListingId, requestedBy: UserId)
    requires l in s.listings && s.listings[l].receipt in s.receipts
    ensures var listing := s.listings[l];
            var receipt := s.receipts[listing.receipt];
            && (Step(s, PublishListing(l, requestedBy)).result.Ok? <==>
                  !s.paused && listing.status == ListingDraft && s.now <= listing.expiresAt
                  && requestedBy == listing.borrower == receipt.holder && receipt.status == InVault)
            && (Step(s, PublishListing(l, requestedBy)).result.Ok? ==>
                  Step(s, PublishListing(l, requestedBy)).state
                    == s.(listings := s.listings[l := listing.(status := ListingActive)]))
            && (Step(s, CancelListing(l, requestedBy)).result.Ok?
                <==> (listing.status == ListingDraft || listing.status == ListingActive)
                     && requestedBy == listing.borrower)
            && (Step(s, CancelListing(l, requestedBy)).result.Ok? ==>
                  var after := Step(s, CancelListing(l, requestedBy)).state.listings[l];
                  && Step(s, CancelListing(l, requestedBy)).state == s.(listings := s.listings[l := after])
                  && after == listing.(status := ListingCancelled, offers := after.offers)
                  && |after.offers| == |listing.offers|
                  && forall i :: 0 <= i < |after.offers| ==>
                       after.offers[i] == listing.offers[i].(status :=
                         if listing.offers[i].status == OfferPending then OfferSuperseded
                                                                     else listing.offers[i].status))
  {
    StepDispatches(s, PublishListing(l, requestedBy));
    StepDispatches(s, CancelListing(l, requestedBy));
  }

  // ----- loans -----

  /** A repayment succeeds exactly for the borrower of an active loan, on a fresh quote, with a payment and a
      spendable balance that cover what is due, while the receipt is pledged. */
  lemma RepayLoanExactlyWhen(s: State, k: LoanId, requestedBy: UserId, payment: int, quotedAt: Instant)
    requires Reachable(s) && k in s.loans
    ensures var loan := s.loans[k];
            && loan.receipt in s.receipts
            && (Step(s, RepayLoan(k, requestedBy, payment, quotedAt)).result.Ok? <==>
                  && requestedBy == loan.borrower && loan.status == LoanActive
                  && AmountDue(loan, quotedAt) == AmountDue(loan, s.now)
                  && payment >= AmountDue(loan, s.now) && Spendable(s, loan.borrower) >= AmountDue(loan, s.now)
                  && s.receipts[loan.receipt].status == Encumbered)
  {
    ReachableIsSound(s);
    assert LoanSound(s.loans[k], s.now) && s.loans[k].receipt in s.receipts;
    RepayLoanAnswers(s, k, requestedBy, payment, quotedAt);
  }

  lemma RepayLoanAnswers(s: State, k: LoanId, requestedBy: UserId, payment: int, quotedAt: Instant)
    requires k in s.loans && Constructible(s.loans[k]) && s.loans[k].receipt in s.receipts
    ensures var loan := s.loans[k];
            Step(s, RepayLoan(k, requestedBy, payment, quotedAt)).result.Ok? <==>
              && requestedBy == loan.borrower && loan.status == LoanActive
              && AmountDue(loan, quotedAt) == AmountDue(loan, s.now)
              && payment >= AmountDue(loan, s.now) && Spendable(s, loan.borrower) >= AmountDue(loan, s.now)
              && s.receipts[loan.receipt].status == Encumbered
  {
    var loan := s.loans[k];
    var c := RepayLoan(k, requestedBy, payment, quotedAt);
    AmountDueLaws(loan, s.now, s.now);
    TransitionsReconstruct(loan, payment, s.now);
    PairBuildable(UserAvailable(loan.borrower), UserAvailable(loan.lender), AmountDue(loan, s.now));
    StepDispatches(s, c);
  }

  /** A default is recorded exactly by the note holder of an active loan whose grace has run; a claim succeeds
      exactly for the note holder of a defaulted loan whose receipt is pledged, and makes them its holder. */
  lemma DefaultAndClaimExactlyWhen(s: State, k: LoanId, requestedBy: UserId)
    requires Reachable(s) && k in s.loans
    ensures var loan := s.loans[k];
            && loan.receipt in s.receipts
            && (Step(s, MarkDefault(k, requestedBy)).result.Ok?
                <==> requestedBy == loan.lender && loan.status == LoanActive && s.now > loan.graceEndsAt)
            && (Step(s, MarkDefault(k, requestedBy)).result.Ok? ==>
                  Step(s, MarkDefault(k, requestedBy)).state
                    == s.(loans := s.loans[k := loan.(status := LoanDefaulted, defaultedAt := Some(s.now))]))
            && (Step(s, ClaimReceipt(k, requestedBy)).result.Ok? <==>
                  requestedBy == loan.lender && loan.status == LoanDefaulted
                  && s.receipts[loan.receipt].status == Encumbered)
            && (Step(s, ClaimReceipt(k, requestedBy)).result.Ok? ==>
                  Step(s, ClaimReceipt(k, requestedBy)).state == s.(receipts := s.receipts[loan.receipt :=
                    s.receipts[loan.receipt].(status := InVault, encumberedBy := None, holder := requestedBy)]))
  {
    ReachableIsSound(s);
    assert LoanSound(s.loans[k], s.now) && s.loans[k].receipt in s.receipts;
    DefaultAndClaimAnswer(s, k, requestedBy);
  }

  lemma DefaultAndClaimAnswer(s: State, k: LoanId, requestedBy: UserId)
    requires k in s.loans && Constructible(s.loans[k]) && s.loans[k].receipt in s.receipts
    ensures var loan := s.loans[k];
            && (Step(s, MarkDefault(k, requestedBy)).result.Ok?
                <==> requestedBy == loan.lender && loan.status == LoanActive && s.now > loan.graceEndsAt)
            && (Step(s, MarkDefault(k, requestedBy)).result.Ok? ==>
                  Step(s, MarkDefault(k, requestedBy)).state
                    == s.(loans := s.loans[k := loan.(status := LoanDefaulted, defaultedAt := Some(s.now))]))
            && (Step(s, ClaimReceipt(k, requestedBy)).result.Ok? <==>
                  requestedBy == loan.lender && loan.status == LoanDefaulted
                  && s.receipts[loan.receipt].status == Encumbered)
            && (Step(s, ClaimReceipt(k, requestedBy)).result.Ok? ==>
                  Step(s, ClaimReceipt(k, requestedBy)).state == s.(receipts := s.receipts[loan.receipt :=
                    s.receipts[loan.receipt].(status := InVault, encumberedBy := None, holder := requestedBy)]))
  {
    StepDispatches(s, MarkDefault(k, requestedBy));
    StepDispatches(s, ClaimReceipt(k, requestedBy));
  }

  /** A receipt is redeemed exactly by its holder while it is in the vault. */
  lemma RedemptionExactlyWhen(s: State, r: ReceiptId, requestedBy: UserId)
    requires r in s.receipts
    ensures var c := RequestRedemption(r, requestedBy);
            && Step(s, c).result == (if requestedBy != s.receipts[r].holder then Err(NotResourceOwner)
                                     else match s.receipts[r].status
                                          case InVault => Ok(r)
                                          case Encumbered => Err(ReceiptIsEncumbered)
                                          case _ => Err(ReceiptAlreadyBurned))
            && (Step(s, c).result.Ok? ==>
                  Step(s, c).state == s.(receipts := s.receipts[r := s.receipts[r].(status := ReceiptReleased)]))
  {
    StepDispatches(s, RequestRedemption(r, requestedBy));
  }

  // ----- auctions -----

  /** A sale is scheduled exactly once per defaulted loan, not before the statutory period has run. */
  lemma ScheduleExactlyWhen(s: State, x: SaleId, k: LoanId, reservePrice: int, parameters: Parameters)
    requires Reachable(s) && k in s.loans
    ensures var c := ScheduleLiquidation(x, k, reservePrice, parameters);
            && (Step(s, c).result.Ok? <==>
                  && s.loans[k].defaultedAt.Some? && s.loans[k].status == LoanDefaulted
                  && s.now >= s.loans[k].defaultedAt.value + parameters.statutoryHoldingPeriodMs
                  && (forall y :: y in s.sales ==> s.sales[y].loan != k) && x !in s.sales)
            && (Step(s, c).result.Ok? ==>
                  Step(s, c).state == s.(sales :=
                    s.sales[x := Sale(k, s.loans[k].receipt, reservePrice, SaleScheduled, None, None, [], None)]))
  {
    var c := ScheduleLiquidation(x, k, reservePrice, parameters);
    StepDispatches(s, c);
  }

  /** Bidding opens exactly on a scheduled sale while the system is not paused. */
  lemma OpenExactlyWhen(s: State, x: SaleId, windowMs: int)
    requires x in s.sales
    ensures var c := OpenLiquidation(x, windowMs);
            && (Step(s, c).result.Ok? <==> !s.paused && s.sales[x].status == SaleScheduled)
            && (Step(s, c).result.Ok? ==>
                  Step(s, c).state == s.(sales :=
                    s.sales[x := s.sales[x].(status := SaleBidding, opensAt := Some(s.now),
                                             closesAt := Some(s.now + windowMs))]))
  {
    StepDispatches(s, OpenLiquidation(x, windowMs));
  }

  /** The bid stands last in its sale's book, and but for the ledger nothing else has changed. */
  ghost predicate BidPlaced(s: State, s': State, c: Command)
    requires c.PlaceBid? && c.saleId in s.sales
  {
    var sale := s.sales[c.saleId];
    var slot := Slot(c.saleId, |sale.bids|);
    var bid := Bid(c.bidId, c.requestedBy, c.amount, c.holdId, s.now);
    s' == s.(
      ledger := s'.ledger,
      sales := s.sales[c.saleId := sale.(bids := sale.bids + [bid])],
      bidSlots := s.bidSlots[c.bidId := slot],
      origins := s.origins[c.holdId := BidOrigin(slot)])
  }

  /** A bid is taken exactly while the sale is bidding and not past its close, clears the reserve, beats every bid
      before it, and is spendable; then it is set aside and stands last. */
  lemma PlaceBidExactlyWhen(s: State, c: Command)
    requires Reachable(s) && c.PlaceBid? && c.saleId in s.sales
    ensures var sale := s.sales[c.saleId];
            && (Step(s, c).result.Ok? <==>
                  && !s.paused && sale.status == SaleBidding && (sale.closesAt.Some? ==> s.now < sale.closesAt.value)
                  && c.amount >= sale.reservePrice
                  && (forall i :: 0 <= i < |sale.bids| ==> c.amount > sale.bids[i].amount)
                  && 0 < c.amount <= Spendable(s, c.requestedBy)
                  && c.holdId !in s.ledger.holds && c.bidId !in s.bidSlots)
            && (Step(s, c).result.Ok? ==>
                  && Moved(s.ledger, Step(s, c).state.ledger, UserAvailable(c.requestedBy), UserHeld(c.requestedBy),
                           c.amount)
                  && BidPlaced(s, Step(s, c).state, c))
  {
    ReachableIsSound(s);
    var sale := s.sales[c.saleId];
    assert SaleSound(sale, s.loans, s.now);
    if sale.bids != [] {
      HighestIsLast(sale.bids);
    }
    HoldExactlyWhen(s.ledger, c.requestedBy, c.amount, c.saleId, c.holdId);
    PlaceBidAnswers(s, c);
  }

  lemma PlaceBidAnswers(s: State, c: Command)
    requires c.PlaceBid? && c.saleId in s.sales && StrictlyRising(s.sales[c.saleId].bids)
    requires s.sales[c.saleId].bids != [] ==>
               HighestBid(s.sales[c.saleId].bids) == Some(s.sales[c.saleId].bids[|s.sales[c.saleId].bids| - 1])
    ensures var sale := s.sales[c.saleId];
            var held := L.Hold(s.ledger, c.requestedBy, c.amount, c.saleId, c.holdId);
            && (Step(s, c).result.Ok? <==>
                  && !s.paused && sale.status == SaleBidding && (sale.closesAt.Some? ==> s.now < sale.closesAt.value)
                  && c.amount >= sale.reservePrice
                  && (forall i :: 0 <= i < |sale.bids| ==> c.amount > sale.bids[i].amount)
                  && held.Ok? && c.bidId !in s.bidSlots)
            && (Step(s, c).result.Ok? ==>
                  && Step(s, c).state.ledger == held.value.ledger
                  && BidPlaced(s, Step(s, c).state, c))
  {
    StepDispatches(s, c);
    var bids := s.sales[c.saleId].bids;
    if bids != [] && c.amount > bids[|bids| - 1].amount {
      forall i | 0 <= i < |bids| ensures c.amount > bids[i].amount {
        assert i < |bids| - 1 ==> bids[i].amount < bids[|bids| - 1].amount;
      }
    }
  }
}
