/** How pledged receipts and loans agree over runs. */
module Collateral {
  import opened Shared
  import opened CustodyReceipts
  import opened Loans
  import opened Marketplace
  import opened Liquidations
  import opened Protocol
  import opened Frames
  import opened Invariant
  import opened Preservation
  import opened Theorems

  /** In every reachable state a pledged receipt names a loan on it that is active or defaulted. */
  lemma PledgedReceiptNamesItsLoan(s: State, r: ReceiptId)
    requires Reachable(s) && r in s.receipts
    ensures s.receipts[r].status == Encumbered <==> s.receipts[r].encumberedBy.Some?
    ensures s.receipts[r].status == Encumbered ==>
              var k := s.receipts[r].encumberedBy.value;
              k in s.loans && s.loans[k].receipt == r
              && (s.loans[k].status == LoanActive || s.loans[k].status == LoanDefaulted)
  {
    ReachableIsSound(s);
    assert PledgeSound(s.receipts[r], r, s.loans);
  }

  /** The strong agreement: at most one live loan per receipt, and an active loan's receipt is pledged to it. */
  ghost predicate Strong(receipts: map<ReceiptId, Receipt>, loans: map<LoanId, Loan>) {
    && (forall k, m :: (k in loans && m in loans && LiveLoan(loans[k]) && LiveLoan(loans[m])
                        && loans[k].receipt == loans[m].receipt) ==> k == m)
    && (forall k :: k in loans && loans[k].status == LoanActive ==>
          loans[k].receipt in receipts && receipts[loans[k].receipt].encumberedBy == Some(k))
  }

  /** A successful acceptance of an offer on a receipt that a defaulted loan still has. */
  ghost predicate Repledges(s: State, c: Command) {
    && c.AcceptOffer? && Step(s, c).result.Ok? && c.listingId in s.listings
    && exists k :: k in s.loans && s.loans[k].status == LoanDefaulted
                   && s.loans[k].receipt == s.listings[c.listingId].receipt
  }

  /** An acceptance keeps the strong agreement exactly when it does not re-pledge. */
  lemma AcceptanceKeepsStrongExactlyWhen(s: State, c: Command)
    requires Inv(s) && Strong(s.receipts, s.loans) && c.AcceptOffer? && Step(s, c).result.Ok?
    ensures Strong(Step(s, c).state.receipts, Step(s, c).state.loans) <==> !Repledges(s, c)
  {
    var p := AcceptanceIsWhole(s, c);
    StrongAfterAcceptance(s, Step(s, c).state, c.listingId, p, c.loanId);
  }

  lemma StrongAfterAcceptance(s: State, s': State, l: ListingId, p: nat, k: LoanId)
    requires CollateralSound(s.receipts, s.loans) && Strong(s.receipts, s.loans) && AcceptanceWrites(s, s', l, p, k)
    ensures Strong(s'.receipts, s'.loans) <==>
            !exists m :: m in s.loans && s.loans[m].status == LoanDefaulted
                         && s.loans[m].receipt == s.listings[l].receipt
  {
    var r := s.listings[l].receipt;
    assert PledgeSound(s.receipts[r], r, s.loans);
    if m :| m in s.loans && s.loans[m].status == LoanDefaulted && s.loans[m].receipt == r {
      assert LiveLoan(s'.loans[m]) && LiveLoan(s'.loans[k]) && s'.loans[m].receipt == s'.loans[k].receipt && m != k;
    } else {
      forall m | m in s.loans && LiveLoan(s.loans[m]) ensures s.loans[m].receipt != r {
      }
      forall a, b | a in s'.loans && b in s'.loans && LiveLoan(s'.loans[a]) && LiveLoan(s'.loans[b])
                    && s'.loans[a].receipt == s'.loans[b].receipt
        ensures a == b
      {
      }
      forall a | a in s'.loans && s'.loans[a].status == LoanActive
        ensures s'.loans[a].receipt in s'.receipts && s'.receipts[s'.loans[a].receipt].encumberedBy == Some(a)
      {
      }
    }
  }

  /** Ending or defaulting one loan, and freeing at most its own receipt, keeps the strong agreement. */
  lemma StrongAfterLoanMove(receipts: map<ReceiptId, Receipt>, loans: map<LoanId, Loan>, k: LoanId, loan: Loan,
                            freed: Receipt)
    requires Strong(receipts, loans)
    requires k in loans && loan.receipt == loans[k].receipt && loan.status != LoanActive && LiveLoan(loans[k])
    ensures Strong(receipts, loans[k := loan])
    ensures Strong(receipts[loan.receipt := freed], loans[k := loan])
  {
  }

  /** Freeing a receipt no active loan has keeps the strong agreement. */
  lemma StrongAfterFreeing(receipts: map<ReceiptId, Receipt>, loans: map<LoanId, Loan>, r: ReceiptId, freed: Receipt)
    requires Strong(receipts, loans)
    requires forall k :: k in loans && loans[k].status == LoanActive ==> loans[k].receipt != r
    ensures Strong(receipts[r := freed], loans)
  {
  }

  lemma RedemptionKeepsStrong(s: State, c: Command)
    requires Inv(s) && Strong(s.receipts, s.loans) && (c.IssueReceipt? || c.RequestRedemption?)
    ensures Strong(Step(s, c).state.receipts, Step(s, c).state.loans)
  {
    var s' := Step(s, c).state;
    if s' != s {
      assert c.RequestRedemption? ==> PledgeSound(s.receipts[c.receiptId], c.receiptId, s.loans);
      StrongAfterFreeing(s.receipts, s.loans, c.receiptId, s'.receipts[c.receiptId]);
    }
  }

  lemma RepaymentKeepsStrong(s: State, c: Command)
    requires Strong(s.receipts, s.loans) && c.RepayLoan?
    ensures Strong(Step(s, c).state.receipts, Step(s, c).state.loans)
  {
    var s' := RepayLoanStep(s, c).state;
    if RepayLoanStep(s, c).result.Ok? {
      StrongAfterLoanMove(s.receipts, s.loans, c.loanId, s'.loans[c.loanId], s'.receipts[s.loans[c.loanId].receipt]);
    }
  }

  lemma DefaultKeepsStrong(s: State, c: Command)
    requires Strong(s.receipts, s.loans) && c.MarkDefault?
    ensures Strong(Step(s, c).state.receipts, Step(s, c).state.loans)
  {
    var s' := MarkDefaultStep(s, c).state;
    if MarkDefaultStep(s, c).result.Ok? {
      StrongAfterLoanMove(s.receipts, s.loans, c.loanId, s'.loans[c.loanId], s.receipts[s.loans[c.loanId].receipt]);
    }
  }

  lemma ClaimKeepsStrong(s: State, c: Command)
    requires Strong(s.receipts, s.loans) && c.ClaimReceipt?
    ensures Strong(Step(s, c).state.receipts, Step(s, c).state.loans)
  {
    var s' := ClaimReceiptStep(s, c).state;
    if ClaimReceiptStep(s, c).result.Ok? {
      StrongAfterFreeing(s.receipts, s.loans, s.loans[c.loanId].receipt, s'.receipts[s.loans[c.loanId].receipt]);
    }
  }

  lemma CloseKeepsStrong(s: State, c: Command)
    requires Inv(s) && Strong(s.receipts, s.loans) && c.CloseLiquidation?
    ensures Strong(Step(s, c).state.receipts, Step(s, c).state.loans)
  {
    var s' := Step(s, c).state;
    if s' != s {
      CloseIsWhole(s, c);
      var k := s.sales[c.saleId].loan;
      assert SaleSound(s.sales[c.saleId], s.loans, s.now);
      StrongAfterLoanMove(s.receipts, s.loans, k, s'.loans[k], s'.receipts[s.loans[k].receipt]);
    }
  }

  predicate MovesCollateral(c: Command) {
    c.AcceptOffer? || c.IssueReceipt? || c.RequestRedemption? || c.RepayLoan? || c.MarkDefault? || c.ClaimReceipt?
    || c.CloseLiquidation?
  }

  lemma CollateralMoveKeepsStrong(s: State, c: Command)
    requires Inv(s) && Strong(s.receipts, s.loans) && MovesCollateral(c) && !c.AcceptOffer?
    ensures Strong(Step(s, c).state.receipts, Step(s, c).state.loans)
  {
    if c.RepayLoan? {
      RepaymentKeepsStrong(s, c);
    } else if c.MarkDefault? {
      DefaultKeepsStrong(s, c);
    } else if c.ClaimReceipt? {
      ClaimKeepsStrong(s, c);
    } else if c.CloseLiquidation? {
      CloseKeepsStrong(s, c);
    } else {
      RedemptionKeepsStrong(s, c);
    }
  }

  lemma FrameSparesCollateral(c: Command, s: State, s': State)
    requires !MovesCollateral(c) && WritesOnlyItsTables(c, s, s')
    ensures s'.receipts == s.receipts && s'.loans == s.loans
  {
    match c
    case Tick(_) => assert s' == s.(now := s'.now);
    case SetPaused(_) => assert s' == s.(paused := s'.paused);
    case Deposit(_, _) => assert s' == s.(ledger := s'.ledger);
    case Withdraw(_, _) => assert s' == s.(ledger := s'.ledger);
    case CreateListing(_, _, _, _, _, _, _, _) => assert s' == s.(listings := s'.listings);
    case PublishListing(_, _) => assert s' == s.(listings := s'.listings);
    case CancelListing(_, _) => assert s' == s.(listings := s'.listings);
    case PlaceOffer(_, _, _, _, _, _, _, _, _) =>
    case WithdrawOffer(_, _, _, _) => assert s' == s.(ledger := s'.ledger, listings := s'.listings);
    case ReclaimHold(_, _) => assert s' == s.(ledger := s'.ledger);
    case ScheduleLiquidation(_, _, _, _) => assert s' == s.(sales := s'.sales);
    case OpenLiquidation(_, _) => assert s' == s.(sales := s'.sales);
    case PlaceBid(_, _, _, _, _) =>
    case ReclaimBid(_, _, _) => assert s' == s.(ledger := s'.ledger);
  }

  lemma OtherCommandsTouchNeither(s: State, c: Command)
    requires !MovesCollateral(c)
    ensures Step(s, c).state.receipts == s.receipts && Step(s, c).state.loans == s.loans
  {
    StepFrame(s, c);
    FrameSparesCollateral(c, s, Step(s, c).state);
  }

  lemma StepKeepsStrong(s: State, c: Command)
    requires Inv(s) && Strong(s.receipts, s.loans) && !Repledges(s, c)
    ensures Strong(Step(s, c).state.receipts, Step(s, c).state.loans)
  {
    if !MovesCollateral(c) {
      OtherCommandsTouchNeither(s, c);
    } else if !c.AcceptOffer? {
      CollateralMoveKeepsStrong(s, c);
    } else {
      AcceptanceKeepsStrong(s, c);
    }
  }

  lemma RefusedAcceptanceChangesNothing(s: State, c: Command)
    requires c.AcceptOffer? && Step(s, c).result.Err?
    ensures Step(s, c).state == s
  {
  }

  lemma AcceptanceKeepsStrong(s: State, c: Command)
    requires Inv(s) && Strong(s.receipts, s.loans) && c.AcceptOffer? && !Repledges(s, c)
    ensures Strong(Step(s, c).state.receipts, Step(s, c).state.loans)
  {
    if Step(s, c).result.Ok? {
      AcceptanceKeepsStrongExactlyWhen(s, c);
    } else {
      RefusedAcceptanceChangesNothing(s, c);
    }
  }

  /** A run in which no acceptance re-pledges a receipt that a defaulted loan still has. */
  ghost predicate NeverRepledges(commands: seq<Command>) {
    forall i :: 0 <= i < |commands| ==> !Repledges(Run(Initial, commands[..i]), commands[i])
  }

  /** The strong agreement holds after `n` commands. */
  ghost predicate StrongAfter(commands: seq<Command>, n: nat)
    requires n <= |commands|
  {
    var s := Run(Initial, commands[..n]);
    Strong(s.receipts, s.loans)
  }

  /** One more command of a run. */
  lemma RunTo(commands: seq<Command>, n: nat)
    requires n < |commands|
    ensures Run(Initial, commands[..n + 1]) == Step(Run(Initial, commands[..n]), commands[n]).state
    ensures Inv(Run(Initial, commands[..n]))
  {
    assert commands[..n + 1][..n] == commands[..n];
    InitialHolds();
    RunKeeps(Initial, commands[..n]);
  }

  lemma StrongCarriesOn(commands: seq<Command>, n: nat)
    requires n < |commands| && StrongAfter(commands, n) && !Repledges(Run(Initial, commands[..n]), commands[n])
    ensures StrongAfter(commands, n + 1)
  {
    RunTo(commands, n);
    StepKeepsStrong(Run(Initial, commands[..n]), commands[n]);
  }

  lemma {:induction false} StrongWhileNotRepledged(commands: seq<Command>, n: nat)
    requires NeverRepledges(commands) && n <= |commands|
    ensures StrongAfter(commands, n)
  {
    if n > 0 {
      StrongWhileNotRepledged(commands, n - 1);
      assert !Repledges(Run(Initial, commands[..n - 1]), commands[n - 1]);
      StrongCarriesOn(commands, n - 1);
    }
  }

  lemma RepledgingBreaks(commands: seq<Command>, n: nat)
    requires n < |commands| && StrongAfter(commands, n) && Repledges(Run(Initial, commands[..n]), commands[n])
    ensures !StrongAfter(commands, n + 1)
  {
    RunTo(commands, n);
    AcceptanceKeepsStrongExactlyWhen(Run(Initial, commands[..n]), commands[n]);
  }

  /** Throughout a run each receipt has at most one live loan and every active loan's receipt is pledged to exactly
      that loan, exactly when the run never re-pledges. */
  lemma CollateralAgreesStrongly(commands: seq<Command>)
    ensures (forall n :: 0 <= n <= |commands| ==>
               Strong(Run(Initial, commands[..n]).receipts, Run(Initial, commands[..n]).loans))
            <==> NeverRepledges(commands)
  {
    if NeverRepledges(commands) {
      forall n | 0 <= n <= |commands|
        ensures Strong(Run(Initial, commands[..n]).receipts, Run(Initial, commands[..n]).loans)
      {
        StrongWhileNotRepledged(commands, n);
      }
    } else {
      var n :| 0 <= n < |commands| && Repledges(Run(Initial, commands[..n]), commands[n]);
      if StrongAfter(commands, n) {
        RepledgingBreaks(commands, n);
      }
    }
  }
}
