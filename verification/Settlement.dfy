/** Repayment and sale settlement on reachable states. */
module Settlement {
  import opened Shared
  import opened Distributions
  import opened LedgerTransaction
  import opened CustodyReceipts
  import opened Loans
  import opened Liquidations
  import opened Protocol
  import opened Invariant
  import opened Preservation
  import opened Theorems
  import L = Ledger
  import Waterfall

  // ----- repayment -----

  lemma LoanIsConstructible(s: State, k: LoanId)
    requires Reachable(s) && k in s.loans
    ensures Constructible(s.loans[k])
  {
    ReachableIsSound(s);
    assert LoanSound(s.loans[k], s.now);
  }

  /** The answer to a repayment that charged what was quoted: principal and interest for the time run, from the borrower
      to the note holder in one transaction, the loan ended and the receipt freed. */
  ghost predicate ChargedTheQuote(s: State, c: Command, answer: Outcome)
    requires c.RepayLoan?
  {
    && c.loanId in s.loans && s.loans[c.loanId].receipt in s.receipts
    && var loan := s.loans[c.loanId];
       var total := AmountDue(loan, c.quotedAt);
       && answer.result == Ok(total) && total == AmountDue(loan, s.now)
       && answer.state == s.(
            ledger := s.ledger.(journal := s.ledger.journal
              + [L.Transaction(L.RepayLoanKind, c.loanId,
                               [Debit(UserAvailable(loan.borrower), total),
                                Credit(UserAvailable(loan.lender), total)])]),
            loans := s.loans[c.loanId := loan.(status := LoanRepaid)],
            receipts := s.receipts[loan.receipt :=
              s.receipts[loan.receipt].(status := InVault, encumberedBy := None)])
  }

  /** A successful repayment charges exactly the figure quoted, which is the principal and the interest for the time
      run. What was offered above the total is not taken. */
  lemma RepaymentChargesTheQuote(s: State, c: Command, larger: int)
    requires Reachable(s) && c.RepayLoan? && Step(s, c).result.Ok? && larger >= c.payment
    ensures ChargedTheQuote(s, c, Step(s, c)) && Step(s, c.(payment := larger)) == Step(s, c)
    ensures IsInterestAt(s.loans[c.loanId], Step(s, c).result.value - s.loans[c.loanId].principal, s.now)
  {
    RepaymentPosts(s, c, larger);
    LoanIsConstructible(s, c.loanId);
    AmountDueIsPrincipalAndInterest(s.loans[c.loanId], s.now);
  }

  lemma RepaymentPosts(s: State, c: Command, larger: int)
    requires c.RepayLoan? && Step(s, c).result.Ok? && larger >= c.payment
    ensures ChargedTheQuote(s, c, Step(s, c)) && Step(s, c.(payment := larger)) == Step(s, c)
  {
    PairBuildable(UserAvailable(s.loans[c.loanId].borrower), UserAvailable(s.loans[c.loanId].lender),
                  AmountDue(s.loans[c.loanId], s.now));
  }

  // ----- the clock of a sale -----

  /** In every reachable state a sale opened only after its loan's grace had run and its default was recorded. */
  lemma SaleFollowsDefault(s: State, x: SaleId)
    requires Reachable(s) && x in s.sales && s.sales[x].opensAt.Some?
    ensures s.sales[x].loan in s.loans
    ensures var loan := s.loans[s.sales[x].loan];
            && loan.defaultedAt.Some?
            && loan.startedAt < loan.maturesAt <= loan.graceEndsAt < loan.defaultedAt.value
            && loan.defaultedAt.value <= s.sales[x].opensAt.value <= s.now
  {
    ReachableIsSound(s);
    assert SaleSound(s.sales[x], s.loans, s.now);
    assert LoanSound(s.loans[s.sales[x].loan], s.now);
  }

  // ----- closing -----

  /** The waterfall of a constructed loan is always a distribution the ledger accepts. */
  lemma SettlementReleases(ledger: L.Ledger, loan: Loan, winner: Bid, now: Instant)
    requires Constructible(loan) && winner.amount > 0
    requires winner.hold in ledger.holds
    requires ledger.holds[winner.hold] == L.FundsHold(winner.bidder, winner.amount, L.HoldHeld, None)
    ensures L.Release(ledger, winner.hold, SettlementLines(loan, winner, now), L.SettleLiquidationKind)
         == Ok(L.Posted(L.Ledger(ledger.journal + [L.Transaction(L.SettleLiquidationKind, winner.hold,
                                                     ReleaseEntries(winner.bidder, winner.amount,
                                                                    SettlementLines(loan, winner, now)))],
                                 L.Settled(ledger.holds, winner.hold, L.HoldReleased, |ledger.journal|)),
                        |ledger.journal|))
  {
    var all := Waterfall.Distribute(winner.amount, AmountDue(loan, now), loan.lender, loan.borrower,
                                    loan.liquidationFeeBasisPoints);
    AmountDueLaws(loan, now, now);
    Waterfall.PartsAreTheWhole(winner.amount, AmountDue(loan, now), loan.lender, loan.borrower,
                               loan.liquidationFeeBasisPoints);
    DropEmptyKeepsTotal(all);
    DropEmptyIsPositive(all);
    ReleaseBuildable(winner.bidder, winner.amount, DropEmpty(all));
  }

  /** The state a close leaves: receipt burned, loan and sale ended, the last bid the winner. */
  ghost function Closed(s: State, x: SaleId, ledger: L.Ledger): State
    requires x in s.sales && s.sales[x].bids != [] && s.sales[x].loan in s.loans
    requires s.loans[s.sales[x].loan].receipt in s.receipts
  {
    var sale := s.sales[x];
    var loan := s.loans[sale.loan];
    s.(ledger := ledger,
       receipts := s.receipts[loan.receipt :=
         s.receipts[loan.receipt].(status := ReceiptLiquidated, encumberedBy := None)],
       loans := s.loans[sale.loan := loan.(status := LoanLiquidated)],
       sales := s.sales[x := sale.(status := SaleSettled, winningBid := Some(sale.bids[|sale.bids| - 1].id))])
  }

  ghost predicate CloseConditions(s: State, x: SaleId) {
    && x in s.sales && s.sales[x].status == SaleBidding && s.sales[x].bids != []
    && s.sales[x].receipt in s.receipts && Live(s.receipts[s.sales[x].receipt])
  }

  /** What a bidding sale with a bid brings to its close. */
  ghost predicate ReadyToClose(s: State, x: SaleId) {
    && x in s.sales && s.sales[x].status == SaleBidding && s.sales[x].bids != []
    && var sale := s.sales[x];
       var winner := sale.bids[|sale.bids| - 1];
       && HighestBid(sale.bids) == Some(winner)
       && winner.hold in s.ledger.holds && winner.amount > 0
       && s.ledger.holds[winner.hold] == L.FundsHold(winner.bidder, winner.amount, L.HoldHeld, None)
       && sale.loan in s.loans
       && s.loans[sale.loan].receipt == sale.receipt && sale.receipt in s.receipts
       && Constructible(s.loans[sale.loan]) && s.loans[sale.loan].status == LoanDefaulted
       && s.now >= s.loans[sale.loan].maturesAt
  }

  lemma BiddingSaleIsReady(s: State, x: SaleId)
    requires Inv(s) && x in s.sales && s.sales[x].status == SaleBidding && s.sales[x].bids != []
    ensures ReadyToClose(s, x)
  {
    var sale := s.sales[x];
    WinningBidIsHeld(s, x);
    assert SaleSound(sale, s.loans, s.now);
    assert LoanSound(s.loans[sale.loan], s.now);
  }

  lemma CloseRuns(s: State, x: SaleId, posted: L.Posted)
    requires x in s.sales && s.sales[x].status == SaleBidding && s.sales[x].bids != []
    requires var sale := s.sales[x];
             var winner := sale.bids[|sale.bids| - 1];
             && HighestBid(sale.bids) == Some(winner)
             && sale.loan in s.loans && s.loans[sale.loan].receipt in s.receipts
             && MarkLiquidated(s.loans[sale.loan]).Ok?
             && L.Release(s.ledger, winner.hold, SettlementLines(s.loans[sale.loan], winner, s.now),
                          L.SettleLiquidationKind) == Ok(posted)
    ensures var live := Live(s.receipts[s.loans[s.sales[x].loan].receipt]);
            && (live ==> Step(s, CloseLiquidation(x)).result == Ok(posted.reference)
                         && Step(s, CloseLiquidation(x)).state == Closed(s, x, posted.ledger))
            && (!live ==> Step(s, CloseLiquidation(x)) == Outcome(s, Err(ReceiptAlreadyBurned)))
  {
  }

  lemma CloseNotOpen(s: State, x: SaleId)
    requires x in s.sales ==> s.sales[x].status != SaleBidding || s.sales[x].bids == []
    ensures Step(s, CloseLiquidation(x)).result.Err? && Step(s, CloseLiquidation(x)).state == s
    ensures Step(s, CloseLiquidation(x)).result.error in {NotFound, LiquidationNotOpen}
  {
  }

  /** The answer of a close on a sale that is bidding and has a bid. */
  lemma ReadyCloseAnswers(s: State, x: SaleId)
    requires ReadyToClose(s, x)
    ensures !Live(s.receipts[s.sales[x].receipt]) ==>
              Step(s, CloseLiquidation(x)) == Outcome(s, Err(ReceiptAlreadyBurned))
    ensures Live(s.receipts[s.sales[x].receipt]) ==>
              var winner := s.sales[x].bids[|s.sales[x].bids| - 1];
              && Step(s, CloseLiquidation(x)).result.Ok?
              && Step(s, CloseLiquidation(x)).state == Closed(s, x, Step(s, CloseLiquidation(x)).state.ledger)
              && Step(s, CloseLiquidation(x)).state.ledger == L.Ledger(
                   s.ledger.journal
                   + [L.Transaction(L.SettleLiquidationKind, winner.hold,
                                    ReleaseEntries(winner.bidder, winner.amount,
                                                   SettlementLines(s.loans[s.sales[x].loan], winner, s.now)))],
                   L.Settled(s.ledger.holds, winner.hold, L.HoldReleased, |s.ledger.journal|))
  {
    var loan := s.loans[s.sales[x].loan];
    var winner := s.sales[x].bids[|s.sales[x].bids| - 1];
    SettlementReleases(s.ledger, loan, winner, s.now);
    CloseRuns(s, x, L.Release(s.ledger, winner.hold, SettlementLines(loan, winner, s.now),
                              L.SettleLiquidationKind).value);
  }

  /** On a reachable state a sale closes exactly when it is bidding, has a bid, and its receipt has not been
      burned: a claimed and redeemed receipt blocks its own sale. Nothing else can go wrong, no settlement
      error is answered, and a refused close changes nothing. */
  lemma CloseSucceedsExactlyWhen(s: State, x: SaleId)
    requires Reachable(s)
    ensures Step(s, CloseLiquidation(x)).result.Ok? <==> CloseConditions(s, x)
    ensures Step(s, CloseLiquidation(x)).result.Err? ==>
              && Step(s, CloseLiquidation(x)).state == s
              && Step(s, CloseLiquidation(x)).result.error in {NotFound, LiquidationNotOpen, ReceiptAlreadyBurned}
  {
    if x in s.sales && s.sales[x].status == SaleBidding && s.sales[x].bids != [] {
      ReachableIsSound(s);
      BiddingSaleIsReady(s, x);
      ReadyCloseAnswers(s, x);
    } else {
      CloseNotOpen(s, x);
    }
  }

  /** What a sale's proceeds do to every balance: the bidder's held money goes to the note holder up to the debt; of the
      rest the platform takes its share, rounded down, and the borrower gets what remains. */
  ghost predicate PaysOut(before: L.Ledger, after: L.Ledger, winner: Bid, loan: Loan, debt: int) {
    var toLender := if winner.amount < debt then winner.amount else debt;
    var fee := (winner.amount - toLender) * loan.liquidationFeeBasisPoints / 10_000;
    forall account :: L.Balance(after.journal, account)
                   == L.Balance(before.journal, account)
                   - (if account == UserHeld(winner.bidder) then winner.amount else 0)
                   + (if account == UserAvailable(loan.lender) then toLender else 0)
                   + (if account == FeeRevenueAccount then fee else 0)
                   + (if account == UserAvailable(loan.borrower) then winner.amount - toLender - fee else 0)
  }

  function PartyOf(account: Account): Party {
    match account
    case UserAvailable(user) => User(user)
    case UserHeld(user) => User(user)
    case FeeRevenueAccount => PlatformFeeRevenue
    case RoundingAccount => PlatformRounding
    case FloatAccount => PlatformFloat
  }

  lemma SettlementPaysOut(before: L.Ledger, after: L.Ledger, winner: Bid, loan: Loan, now: Instant)
    requires Constructible(loan) && winner.amount > 0
    requires after.journal == before.journal
               + [L.Transaction(L.SettleLiquidationKind, winner.hold,
                                ReleaseEntries(winner.bidder, winner.amount, SettlementLines(loan, winner, now)))]
    ensures PaysOut(before, after, winner, loan, AmountDue(loan, now))
  {
    var debt := AmountDue(loan, now);
    var lines := Waterfall.Distribute(winner.amount, debt, loan.lender, loan.borrower, loan.liquidationFeeBasisPoints);
    AmountDueLaws(loan, now, now);
    forall account
      ensures L.Balance(after.journal, account) == L.Balance(before.journal, account)
           + (if account.UserHeld? then (if account.user == winner.bidder then -winner.amount else 0)
              else PaidTo(lines, PartyOf(account)))
    {
      L.BalanceAppend(before.journal, after.journal[|before.journal|], account);
      ReleasePays(winner.bidder, winner.amount, DropEmpty(lines), account, PartyOf(account));
      DropEmptyPaysTheSame(lines, PartyOf(account));
    }
    LinesPayOut(before, after, winner, loan, debt);
  }

  lemma LinesPayOut(before: L.Ledger, after: L.Ledger, winner: Bid, loan: Loan, debt: int)
    requires winner.amount >= 0 && debt >= 0
    requires var lines := Waterfall.Distribute(winner.amount, debt, loan.lender, loan.borrower,
                                               loan.liquidationFeeBasisPoints);
             forall account ::
               L.Balance(after.journal, account) == L.Balance(before.journal, account)
                 + (if account.UserHeld? then (if account.user == winner.bidder then -winner.amount else 0)
                    else PaidTo(lines, PartyOf(account)))
    ensures PaysOut(before, after, winner, loan, debt)
  {
    forall account {
      Waterfall.PaysEachParty(winner.amount, debt, loan.lender, loan.borrower, loan.liquidationFeeBasisPoints,
                              PartyOf(account));
    }
  }

  /** A sale closed on the debt as it stood at maturity, principal and a full term's interest: the bid is paid out, the
      winner's hold settled, the receipt burned, loan and sale ended, and nothing else changed. */
  ghost predicate SettledAtMaturity(s: State, x: SaleId, s': State) {
    && x in s.sales && s.sales[x].bids != [] && s.sales[x].loan in s.loans && s.sales[x].receipt in s.receipts
    && var sale := s.sales[x];
       var loan := s.loans[sale.loan];
       var winner := sale.bids[|sale.bids| - 1];
       var debt := AmountDue(loan, loan.maturesAt);
       && IsInterestAt(loan, debt - loan.principal, loan.maturesAt)
       && PaysOut(s.ledger, s'.ledger, winner, loan, debt)
       && |s'.ledger.journal| == |s.ledger.journal| + 1
       && s'.ledger.holds == s.ledger.holds[winner.hold :=
            L.FundsHold(winner.bidder, winner.amount, L.HoldReleased, Some(|s.ledger.journal|))]
       && s' == s.(
            ledger := s'.ledger,
            receipts := s.receipts[sale.receipt :=
              s.receipts[sale.receipt].(status := ReceiptLiquidated, encumberedBy := None)],
            loans := s.loans[sale.loan := loan.(status := LoanLiquidated)],
            sales := s.sales[x := sale.(status := SaleSettled, winningBid := Some(winner.id))])
  }

  lemma ClosedIsSettled(s: State, x: SaleId, ledger: L.Ledger)
    requires ReadyToClose(s, x)
    requires var winner := s.sales[x].bids[|s.sales[x].bids| - 1];
             ledger == L.Ledger(
               s.ledger.journal
               + [L.Transaction(L.SettleLiquidationKind, winner.hold,
                                ReleaseEntries(winner.bidder, winner.amount,
                                               SettlementLines(s.loans[s.sales[x].loan], winner, s.now)))],
               L.Settled(s.ledger.holds, winner.hold, L.HoldReleased, |s.ledger.journal|))
    ensures SettledAtMaturity(s, x, Closed(s, x, ledger))
  {
    var loan := s.loans[s.sales[x].loan];
    var winner := s.sales[x].bids[|s.sales[x].bids| - 1];
    AmountDueLaws(loan, loan.maturesAt, s.now);
    SettlementPaysOut(s.ledger, ledger, winner, loan, s.now);
  }

  /** Every successful close settles the debt as it stood at maturity, however late it comes. */
  lemma CloseSettlesTheDebtAtMaturity(s: State, x: SaleId)
    requires Reachable(s) && CloseConditions(s, x)
    ensures SettledAtMaturity(s, x, Step(s, CloseLiquidation(x)).state)
  {
    ReadySale(s, x);
    ReadyCloseAnswers(s, x);
    ClosedIsSettled(s, x, Step(s, CloseLiquidation(x)).state.ledger);
  }

  lemma ReadySale(s: State, x: SaleId)
    requires Reachable(s) && CloseConditions(s, x)
    ensures ReadyToClose(s, x)
  {
    ReachableIsSound(s);
    BiddingSaleIsReady(s, x);
  }
}
