/** Whether the standing high bid of a running sale has a way out. */
module Exits {
  import opened Shared
  import opened CustodyReceipts
  import opened Marketplace
  import opened Liquidations
  import opened Protocol
  import opened Invariant
  import opened Preservation
  import opened Theorems
  import opened Settlement
  import opened Histories
  import opened Operations
  import L = Ledger

  predicate StillHeld(s: State, h: HoldId) {
    h in s.ledger.holds && s.ledger.holds[h].status == L.HoldHeld
  }

  /** A running sale with a bid. */
  predicate Contested(s: State, x: SaleId) {
    x in s.sales && s.sales[x].status == SaleBidding && s.sales[x].bids != []
  }

  function HighBidOf(sale: Sale): Bid
    requires sale.bids != []
  {
    sale.bids[|sale.bids| - 1]
  }

  lemma ContestedFacts(s: State, x: SaleId)
    requires Reachable(s) && Contested(s, x)
    ensures var sale := s.sales[x];
            && sale.closesAt.Some? && sale.receipt in s.receipts
            && sale.loan in s.loans && s.loans[sale.loan].receipt == sale.receipt
            && StrictlyRising(sale.bids)
            && 0 < HighBidOf(sale).amount && sale.reservePrice <= HighBidOf(sale).amount
            && StillHeld(s, HighBidOf(sale).hold)
  {
    ReachableIsSound(s);
    assert SaleSound(s.sales[x], s.loans, s.now);
    BiddingSaleIsReady(s, x);
  }

  // ----- the sale can close -----

  /** Closing releases the high bid's hold. */
  lemma ClosingIsAnExit(s: State, x: SaleId)
    requires Reachable(s) && Contested(s, x) && s.sales[x].receipt in s.receipts && Live(s.receipts[s.sales[x].receipt])
    ensures !StillHeld(Step(s, CloseLiquidation(x)).state, HighBidOf(s.sales[x]).hold)
  {
    ReachableIsSound(s);
    BiddingSaleIsReady(s, x);
    ReadyCloseAnswers(s, x);
    var c := CloseLiquidation(x);
    StepDispatches(s, c);
    assert |CloseLiquidationStep(s, c).state.ledger.journal| > |s.ledger.journal|;
    CloseIsWhole(s, c);
  }

  // ----- the bid can be beaten -----

  /** An id above all in use. */
  lemma {:induction false} FreshId(ids: set<nat>) returns (id: nat)
    ensures forall used :: used in ids ==> used < id
  {
    if ids == {} {
      id := 0;
    } else {
      var one :| one in ids;
      var others := ids - {one};
      var above := FreshId(others);
      id := if above > one then above else one + 1;
      forall used | used in ids ensures used < id {
        assert used == one || used in others;
      }
    }
  }

  lemma Unpaused(s: State)
    requires Reachable(s)
    ensures Reachable(s.(paused := false)) && Step(s, SetPaused(false)).state == s.(paused := false)
  {
    StepIsReachable(s, SetPaused(false));
  }

  /** Somebody deposits enough. */
  lemma Funded(s: State, amount: int) returns (s': State)
    requires Reachable(s) && amount > 0
    ensures Reachable(s') && s' == Step(s, Deposit(0, amount)).state
    ensures s' == s.(ledger := s'.ledger) && s'.ledger.holds == s.ledger.holds && Spendable(s', 0) >= amount
  {
    DepositExactlyWhen(s, 0, amount);
    StepIsReachable(s, Deposit(0, amount));
    s' := Step(s, Deposit(0, amount)).state;
    ReachableIsSound(s);
  }

  lemma HigherThanAll(bids: seq<Bid>, amount: int)
    requires bids != [] && amount > bids[|bids| - 1].amount
    requires StrictlyRising(bids)
    ensures forall i :: 0 <= i < |bids| ==> amount > bids[i].amount
  {}

  /** While bidding is open anybody with money can beat the high bid. */
  lemma HigherBidRuns(s: State, x: SaleId, c: Command)
    requires c.PlaceBid? && c.saleId == x && Contested(s, x) && !s.paused
    requires s.sales[x].closesAt.Some? && s.now < s.sales[x].closesAt.value
    requires StrictlyRising(s.sales[x].bids) && s.sales[x].reservePrice <= HighBidOf(s.sales[x]).amount
    requires 0 < c.amount <= Spendable(s, c.requestedBy) && c.amount == HighBidOf(s.sales[x]).amount + 1
    requires c.bidId !in s.bidSlots && c.holdId !in s.ledger.holds
    ensures x in Step(s, c).state.sales
    ensures Step(s, c).state.sales[x].bids == s.sales[x].bids + [Bid(c.bidId, c.requestedBy, c.amount, c.holdId, s.now)]
  {
    HighestIsLast(s.sales[x].bids);
    HigherThanAll(s.sales[x].bids, c.amount);
    HoldExactlyWhen(s.ledger, c.requestedBy, c.amount, x, c.holdId);
    PlaceBidAnswers(s, c);
  }

  /** Reclaiming a beaten bid ends its hold. */
  lemma ReclaimingIsAnExit(s: State, x: SaleId, p: nat)
    requires Reachable(s) && x in s.sales && p + 1 < |s.sales[x].bids|
    ensures var bid := s.sales[x].bids[p];
            !StillHeld(Step(s, ReclaimBid(x, bid.id, bid.bidder)).state, bid.hold)
  {
    ReachableIsSound(s);
    BidIsFound(s, x, p);
    ReclaimableIsBeaten(s, x, p);
    var h := s.sales[x].bids[p].hold;
    RefundAnswers(s.ledger, h);
    RefundEndsTheHold(s.ledger, h);
    ReclaimBidRuns(s, x, p, L.Refund(s.ledger, h).value);
  }

  lemma RefundEndsTheHold(ledger: L.Ledger, h: HoldId)
    requires L.Refund(ledger, h).Ok?
    ensures h in L.Refund(ledger, h).value.ledger.holds
            && L.Refund(ledger, h).value.ledger.holds[h].status == L.HoldRefunded
  {}

  /** Some commands lead from one state to the other. */
  ghost predicate Leads(s: State, later: State) {
    exists commands :: later == Run(s, commands)
  }

  lemma LeadsNowhere(s: State)
    ensures Leads(s, s)
  {
    assert s == Run(s, []);
  }

  lemma {:induction false} LeadsOneFurther(s: State, later: State, c: Command)
    requires Leads(s, later)
    ensures Leads(s, Step(later, c).state)
  {
    var commands :| later == Run(s, commands);
    assert (commands + [c])[..|commands|] == commands;
    assert Step(later, c).state == Run(s, commands + [c]);
  }

  lemma FundedRival(s: State, amount: int) returns (s': State)
    requires Reachable(s) && amount > 0
    ensures Leads(s, s') && Reachable(s')
    ensures s' == s.(paused := false, ledger := s'.ledger) && s'.ledger.holds == s.ledger.holds
            && Spendable(s', 0) >= amount
  {
    LeadsNowhere(s);
    Unpaused(s);
    LeadsOneFurther(s, s, SetPaused(false));
    s' := Funded(s.(paused := false), amount);
    LeadsOneFurther(s, s.(paused := false), Deposit(0, amount));
  }

  lemma Outbid(s: State, rival: State, x: SaleId, c: Command) returns (later: State)
    requires Leads(s, rival) && Reachable(rival)
    requires c.PlaceBid? && c.saleId == x && Contested(rival, x) && !rival.paused
    requires rival.sales[x].closesAt.Some? && rival.now < rival.sales[x].closesAt.value
    requires c.amount == HighBidOf(rival.sales[x]).amount + 1 && c.amount <= Spendable(rival, c.requestedBy)
    requires c.bidId !in rival.bidSlots && c.holdId !in rival.ledger.holds
    ensures Leads(s, later) && Reachable(later) && x in later.sales
    ensures later.sales[x].bids == rival.sales[x].bids + [Bid(c.bidId, c.requestedBy, c.amount, c.holdId, rival.now)]
  {
    ContestedFacts(rival, x);
    HigherBidRuns(rival, x, c);
    LeadsOneFurther(s, rival, c);
    StepIsReachable(rival, c);
    later := Step(rival, c).state;
  }

  lemma Reclaimed(s: State, beaten: State, x: SaleId, p: nat) returns (later: State)
    requires Leads(s, beaten) && Reachable(beaten) && x in beaten.sales && p + 1 < |beaten.sales[x].bids|
    ensures Leads(s, later) && !StillHeld(later, beaten.sales[x].bids[p].hold)
  {
    var bid := beaten.sales[x].bids[p];
    ReclaimingIsAnExit(beaten, x, p);
    LeadsOneFurther(s, beaten, ReclaimBid(x, bid.id, bid.bidder));
    later := Step(beaten, ReclaimBid(x, bid.id, bid.bidder)).state;
  }

  lemma BeatingIsAnExit(s: State, x: SaleId) returns (later: State)
    requires Reachable(s) && Contested(s, x) && s.sales[x].closesAt.Some? && s.now < s.sales[x].closesAt.value
    ensures Leads(s, later) && !StillHeld(later, HighBidOf(s.sales[x]).hold)
  {
    var amount := HighBidOf(s.sales[x]).amount + 1;
    ContestedFacts(s, x);
    var newBid := FreshId(s.bidSlots.Keys);
    var newHold := FreshId(s.ledger.holds.Keys);
    var rival := FundedRival(s, amount);
    var beaten := Outbid(s, rival, x, PlaceBid(x, 0, amount, newBid, newHold));
    later := Reclaimed(s, beaten, x, |s.sales[x].bids| - 1);
  }

  // ----- otherwise there is none -----

  /** Some commands end the hold. */
  ghost predicate HasAnExit(s: State, h: HoldId) {
    exists commands :: !StillHeld(Run(s, commands), h)
  }

  lemma LeadsToAnExit(s: State, later: State, h: HoldId)
    requires Leads(s, later) && !StillHeld(later, h)
    ensures HasAnExit(s, h)
  {
    var commands :| later == Run(s, commands);
    assert !StillHeld(Run(s, commands), h);
  }

  lemma LiveCollateralIsAnExit(s: State, x: SaleId)
    requires Reachable(s) && Contested(s, x) && s.sales[x].receipt in s.receipts && Live(s.receipts[s.sales[x].receipt])
    ensures HasAnExit(s, HighBidOf(s.sales[x]).hold)
  {
    ClosingIsAnExit(s, x);
    LeadsNowhere(s);
    LeadsOneFurther(s, s, CloseLiquidation(x));
    LeadsToAnExit(s, Step(s, CloseLiquidation(x)).state, HighBidOf(s.sales[x]).hold);
  }

  lemma ClosedWithoutCollateral(s: State, x: SaleId)
    requires Reachable(s) && Contested(s, x) && s.sales[x].closesAt.Some? && s.sales[x].closesAt.value <= s.now
    requires s.sales[x].receipt in s.receipts && !Live(s.receipts[s.sales[x].receipt])
    ensures Stuck(s, x, s.sales[x].bids)
  {
    ContestedFacts(s, x);
  }

  lemma StuckBidIsStillHeld(s: State, x: SaleId, bids: seq<Bid>, commands: seq<Command>)
    requires Reachable(s) && Stuck(s, x, bids)
    ensures StillHeld(Run(s, commands), bids[|bids| - 1].hold)
  {
    RedeemedCollateralTrapsTheHighBid(s, x, bids, commands);
  }

  lemma StuckHasNoExits(s: State, x: SaleId, bids: seq<Bid>)
    requires Reachable(s) && Stuck(s, x, bids)
    ensures !HasAnExit(s, bids[|bids| - 1].hold)
  {
    forall commands ensures StillHeld(Run(s, commands), bids[|bids| - 1].hold) {
      StuckBidIsStillHeld(s, x, bids, commands);
    }
  }

  /** The money of a running sale's standing high bid can ever move again exactly when the receipt has not been burned,
      so that the sale can still close, or bidding has not closed, so that the bid can still be beaten and reclaimed. */
  lemma HighBidHasAnExitExactlyWhen(s: State, x: SaleId)
    requires Reachable(s) && Contested(s, x)
    ensures s.sales[x].closesAt.Some? && s.sales[x].receipt in s.receipts
    ensures HasAnExit(s, HighBidOf(s.sales[x]).hold)
            <==> Live(s.receipts[s.sales[x].receipt]) || s.now < s.sales[x].closesAt.value
  {
    ContestedFacts(s, x);
    if Live(s.receipts[s.sales[x].receipt]) {
      LiveCollateralIsAnExit(s, x);
    } else if s.now < s.sales[x].closesAt.value {
      var later := BeatingIsAnExit(s, x);
      LeadsToAnExit(s, later, HighBidOf(s.sales[x]).hold);
    } else {
      ClosedWithoutCollateral(s, x);
      StuckHasNoExits(s, x, s.sales[x].bids);
    }
  }
}
