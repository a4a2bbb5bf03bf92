/** What one state promises about every later one. */
module Histories {
  import opened Shared
  import opened CustodyReceipts
  import opened Loans
  import opened Marketplace
  import opened Liquidations
  import opened Protocol
  import opened Frames
  import opened Invariant
  import opened Preservation
  import opened Theorems
  import opened Settlement
  import opened Collateral
  import L = Ledger

  /** The terms of a loan, which are fixed at origination. */
  predicate SameTerms(loan: Loan, later: Loan) {
    later == loan.(status := later.status, defaultedAt := later.defaultedAt)
  }

  ghost predicate LoansOnward(loans: map<LoanId, Loan>, later: map<LoanId, Loan>) {
    forall k :: k in loans ==> k in later && SameTerms(loans[k], later[k])
  }

  ghost predicate ReceiptsOnward(receipts: map<ReceiptId, Receipt>, later: map<ReceiptId, Receipt>) {
    forall r :: r in receipts ==> r in later && (!Live(receipts[r]) ==> later[r] == receipts[r])
  }

  /** The clock does not go back, no loan disappears or changes its terms, and a burned receipt stays burned. */
  ghost predicate Onward(s: State, later: State) {
    && s.now <= later.now
    && LoansOnward(s.loans, later.loans)
    && ReceiptsOnward(s.receipts, later.receipts)
  }

  lemma ClockMovesOn(s: State, c: Command)
    ensures s.now <= Step(s, c).state.now
  {
    StepFrame(s, c);
  }

  lemma LoanWritten(loans: map<LoanId, Loan>, k: LoanId, loan: Loan)
    requires k in loans ==> SameTerms(loans[k], loan)
    ensures LoansOnward(loans, loans[k := loan])
  {
  }

  lemma ReceiptWritten(receipts: map<ReceiptId, Receipt>, r: ReceiptId, receipt: Receipt)
    requires r in receipts ==> Live(receipts[r])
    ensures ReceiptsOnward(receipts, receipts[r := receipt])
  {
  }

  lemma IssueIsOnward(s: State, c: Command)
    requires c.IssueReceipt?
    ensures Onward(s, IssueReceiptStep(s, c).state)
  {
    if c.receiptId !in s.receipts {
      ReceiptWritten(s.receipts, c.receiptId, IssueReceiptStep(s, c).state.receipts[c.receiptId]);
    }
  }

  lemma RedemptionIsOnward(s: State, c: Command)
    requires c.RequestRedemption?
    ensures Onward(s, RequestRedemptionStep(s, c).state)
  {
    if RequestRedemptionStep(s, c).result.Ok? {
      ReceiptWritten(s.receipts, c.receiptId, RequestRedemptionStep(s, c).state.receipts[c.receiptId]);
    }
  }

  lemma AcceptanceIsOnward(s: State, c: Command)
    requires c.AcceptOffer?
    ensures Onward(s, AcceptOfferStep(s, c).state)
  {
    var s' := AcceptOfferStep(s, c).state;
    if AcceptOfferStep(s, c).result.Ok? {
      var r := s.listings[c.listingId].receipt;
      LoanWritten(s.loans, c.loanId, s'.loans[c.loanId]);
      ReceiptWritten(s.receipts, r, s'.receipts[r]);
    } else {
      assert s' == s;
    }
  }

  lemma RepaymentIsOnward(s: State, c: Command)
    requires c.RepayLoan?
    ensures Onward(s, RepayLoanStep(s, c).state)
  {
    var s' := RepayLoanStep(s, c).state;
    if RepayLoanStep(s, c).result.Ok? {
      var r := s.loans[c.loanId].receipt;
      LoanWritten(s.loans, c.loanId, s'.loans[c.loanId]);
      ReceiptWritten(s.receipts, r, s'.receipts[r]);
    } else {
      assert s' == s;
    }
  }

  lemma DefaultIsOnward(s: State, c: Command)
    requires c.MarkDefault?
    ensures Onward(s, MarkDefaultStep(s, c).state)
  {
    if MarkDefaultStep(s, c).result.Ok? {
      LoanWritten(s.loans, c.loanId, MarkDefaultStep(s, c).state.loans[c.loanId]);
    }
  }

  lemma ClaimIsOnward(s: State, c: Command)
    requires c.ClaimReceipt?
    ensures Onward(s, ClaimReceiptStep(s, c).state)
  {
    if ClaimReceiptStep(s, c).result.Ok? {
      var r := s.loans[c.loanId].receipt;
      ReceiptWritten(s.receipts, r, ClaimReceiptStep(s, c).state.receipts[r]);
    }
  }

  lemma SettlementIsOnward(s: State, x: SaleId, closed: ClosedSale, posted: L.Posted)
    requires x in s.sales && s.sales[x].loan in s.loans
    ensures Onward(s, SettleSale(s, x, closed, posted).state)
  {
    var s' := SettleSale(s, x, closed, posted).state;
    var k := s.sales[x].loan;
    var r := s.loans[k].receipt;
    if s' != s {
      ReceiptWritten(s.receipts, r, s'.receipts[r]);
      LoanWritten(s.loans, k, s.loans[k].(status := LoanLiquidated));
    }
  }

  lemma CloseIsOnward(s: State, c: Command)
    requires c.CloseLiquidation?
    ensures Onward(s, CloseLiquidationStep(s, c).state)
  {
    if CloseLiquidationStep(s, c).state != s {
      var closed, posted := CloseSettles(s, c);
      SettlementIsOnward(s, c.saleId, closed, posted);
    }
  }

  lemma CollateralMoveIsOnward(s: State, c: Command)
    requires MovesCollateral(c)
    ensures Onward(s, Step(s, c).state)
  {
    if c.AcceptOffer? {
      AcceptanceIsOnward(s, c);
    } else if c.RepayLoan? {
      RepaymentIsOnward(s, c);
    } else if c.MarkDefault? {
      DefaultIsOnward(s, c);
    } else if c.ClaimReceipt? {
      ClaimIsOnward(s, c);
    } else if c.CloseLiquidation? {
      CloseIsOnward(s, c);
    } else if c.IssueReceipt? {
      IssueIsOnward(s, c);
    } else {
      RedemptionIsOnward(s, c);
    }
  }

  lemma StepIsOnward(s: State, c: Command)
    ensures Onward(s, Step(s, c).state)
  {
    if MovesCollateral(c) {
      CollateralMoveIsOnward(s, c);
    } else {
      ClockMovesOn(s, c);
      OtherCommandsTouchNeither(s, c);
    }
  }

  lemma OnwardChains(a: State, b: State, c: State)
    requires Onward(a, b) && Onward(b, c)
    ensures Onward(a, c)
  {
    forall k | k in a.loans ensures k in c.loans && SameTerms(a.loans[k], c.loans[k]) {
      assert k in b.loans && SameTerms(a.loans[k], b.loans[k]);
    }
  }

  lemma {:induction false} RunIsOnward(s: State, commands: seq<Command>)
    ensures Onward(s, Run(s, commands))
  {
    if commands != [] {
      var before := Run(s, commands[..|commands| - 1]);
      RunIsOnward(s, commands[..|commands| - 1]);
      StepIsOnward(before, commands[|commands| - 1]);
      OnwardChains(s, before, Run(s, commands));
    }
  }

  // ----- quotes -----

  /** A quote that has gone stale is honoured in no later state, whatever happens in between. */
  lemma StaleQuoteIsNeverHonoured(s: State, k: LoanId, quotedAt: Instant, commands: seq<Command>, requestedBy: UserId,
                                  payment: int)
    requires Reachable(s) && k in s.loans && quotedAt <= s.now
    requires AmountDue(s.loans[k], quotedAt) != AmountDue(s.loans[k], s.now)
    ensures Step(Run(s, commands), RepayLoan(k, requestedBy, payment, quotedAt)).result.Err?
  {
    ReachableIsSound(s);
    RunIsOnward(s, commands);
    var later := Run(s, commands);
    var loan := s.loans[k];
    assert LoanSound(loan, s.now);
    AmountDueLaws(loan, quotedAt, s.now);
    AmountDueLaws(loan, s.now, later.now);
    assert SameTerms(loan, later.loans[k]);
    TermsFixTheDebt(loan, later.loans[k], quotedAt);
    TermsFixTheDebt(loan, later.loans[k], later.now);
    StaleQuoteRefused(later, RepayLoan(k, requestedBy, payment, quotedAt));
  }

  lemma TermsFixTheDebt(loan: Loan, later: Loan, at: Instant)
    requires SameTerms(loan, later)
    ensures AmountDue(later, at) == AmountDue(loan, at)
  {
  }

  lemma StaleQuoteRefused(s: State, c: Command)
    requires c.RepayLoan? && c.loanId in s.loans
    requires AmountDue(s.loans[c.loanId], c.quotedAt) != AmountDue(s.loans[c.loanId], s.now)
    ensures Step(s, c).result.Err?
  {
  }

  // ----- a sale whose collateral is gone -----

  /** A sale past its closing time, with a bid, whose receipt has been burned by something else. */
  ghost predicate Stuck(s: State, x: SaleId, bids: seq<Bid>) {
    && x in s.sales && s.sales[x].status == SaleBidding && s.sales[x].bids == bids && bids != []
    && s.sales[x].closesAt.Some? && s.sales[x].closesAt.value <= s.now
    && s.sales[x].loan in s.loans && s.loans[s.sales[x].loan].receipt in s.receipts
    && !Live(s.receipts[s.loans[s.sales[x].loan].receipt])
  }

  lemma StuckSaleUntouched(s: State, x: SaleId, bids: seq<Bid>, c: Command)
    requires Stuck(s, x, bids)
    ensures x in Step(s, c).state.sales && Step(s, c).state.sales[x] == s.sales[x]
  {
    StepFrame(s, c);
    StepDispatches(s, c);
    if c.ScheduleLiquidation? {
      SchedulingSparesSales(s, x, c);
    } else if c.OpenLiquidation? {
      OpeningSparesBidding(s, x, c);
    } else if c.PlaceBid? {
      BiddingIsOver(s, x, bids, c);
    } else if c.CloseLiquidation? {
      ClosingIsRefused(s, x, bids, c);
    }
  }

  lemma SchedulingSparesSales(s: State, x: SaleId, c: Command)
    requires c.ScheduleLiquidation? && x in s.sales
    ensures var sales := ScheduleLiquidationStep(s, c).state.sales; x in sales && sales[x] == s.sales[x]
  {
  }

  lemma OpeningSparesBidding(s: State, x: SaleId, c: Command)
    requires c.OpenLiquidation? && x in s.sales && s.sales[x].status == SaleBidding
    ensures var sales := OpenLiquidationStep(s, c).state.sales; x in sales && sales[x] == s.sales[x]
  {
  }

  lemma BiddingIsOver(s: State, x: SaleId, bids: seq<Bid>, c: Command)
    requires c.PlaceBid? && Stuck(s, x, bids)
    ensures var sales := PlaceBidStep(s, c).state.sales; x in sales && sales[x] == s.sales[x]
  {
  }

  lemma ClosingIsRefused(s: State, x: SaleId, bids: seq<Bid>, c: Command)
    requires c.CloseLiquidation? && Stuck(s, x, bids)
    ensures var sales := CloseLiquidationStep(s, c).state.sales; x in sales && sales[x] == s.sales[x]
  {
  }

  lemma StuckStays(s: State, x: SaleId, bids: seq<Bid>, c: Command)
    requires Stuck(s, x, bids)
    ensures Stuck(Step(s, c).state, x, bids)
  {
    StuckSaleUntouched(s, x, bids, c);
    StepIsOnward(s, c);
    assert SameTerms(s.loans[s.sales[x].loan], Step(s, c).state.loans[s.sales[x].loan]);
  }

  lemma {:induction false} StuckForGood(s: State, x: SaleId, bids: seq<Bid>, commands: seq<Command>)
    requires Stuck(s, x, bids)
    ensures Stuck(Run(s, commands), x, bids)
  {
    if commands != [] {
      StuckForGood(s, x, bids, commands[..|commands| - 1]);
      StuckStays(Run(s, commands[..|commands| - 1]), x, bids, commands[|commands| - 1]);
    }
  }

  /** The standing high bid of a sale whose receipt was claimed and redeemed has no exit: once bidding is
      over, in every later state its money is still held, its reclaim is refused and the close is refused. */
  lemma RedeemedCollateralTrapsTheHighBid(s: State, x: SaleId, bids: seq<Bid>, commands: seq<Command>)
    requires Reachable(s) && Stuck(s, x, bids)
    ensures var later := Run(s, commands);
            var bid := bids[|bids| - 1];
            && bid.hold in later.ledger.holds && later.ledger.holds[bid.hold].status == L.HoldHeld
            && Step(later, ReclaimBid(x, bid.id, bid.bidder)) == Outcome(later, Err(HoldNotReclaimable))
            && Step(later, CloseLiquidation(x)) == Outcome(later, Err(ReceiptAlreadyBurned))
  {
    ReachableIsSound(s);
    RunKeeps(s, commands);
    StuckForGood(s, x, bids, commands);
    StuckHasNoExit(Run(s, commands), x, bids);
  }

  lemma StuckHasNoExit(s: State, x: SaleId, bids: seq<Bid>)
    requires Inv(s) && Stuck(s, x, bids)
    ensures var bid := bids[|bids| - 1];
            && bid.hold in s.ledger.holds && s.ledger.holds[bid.hold].status == L.HoldHeld
            && Step(s, ReclaimBid(x, bid.id, bid.bidder)) == Outcome(s, Err(HoldNotReclaimable))
            && Step(s, CloseLiquidation(x)) == Outcome(s, Err(ReceiptAlreadyBurned))
  {
    BiddingSaleIsReady(s, x);
    ReadyCloseAnswers(s, x);
    StuckBidStays(s, x, |bids| - 1);
  }

  lemma StuckBidStays(s: State, x: SaleId, p: nat)
    requires Inv(s) && x in s.sales && p + 1 == |s.sales[x].bids|
    ensures var bid := s.sales[x].bids[p];
            Step(s, ReclaimBid(x, bid.id, bid.bidder)) == Outcome(s, Err(HoldNotReclaimable))
  {
    BidIsFound(s, x, p);
    ReclaimableIsBeaten(s, x, p);
    ReclaimBidRefused(s, x, p);
  }
}
