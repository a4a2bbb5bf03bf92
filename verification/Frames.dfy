/** Which tables each command writes. */
module Frames {
  import opened Shared
  import opened Marketplace
  import opened Liquidations
  import opened Protocol
  import L = Ledger

  /** Everything but the command's own tables is as it was, and the clock only goes forward. */
  predicate WritesOnlyItsTables(c: Command, s: State, s': State) {
    s.now <= s'.now &&
    match c
    case Tick(_) => s' == s.(now := s'.now)
    case SetPaused(_) => s' == s.(paused := s'.paused)
    case Deposit(_, _) => s' == s.(ledger := s'.ledger)
    case Withdraw(_, _) => s' == s.(ledger := s'.ledger)
    case IssueReceipt(_, _, _, _, _, _) => s' == s.(receipts := s'.receipts)
    case RequestRedemption(_, _) => s' == s.(receipts := s'.receipts)
    case CreateListing(_, _, _, _, _, _, _, _) => s' == s.(listings := s'.listings)
    case PublishListing(_, _) => s' == s.(listings := s'.listings)
    case CancelListing(_, _) => s' == s.(listings := s'.listings)
    case PlaceOffer(_, _, _, _, _, _, _, _, _) =>
      s' == s.(ledger := s'.ledger, listings := s'.listings, offerSlots := s'.offerSlots, origins := s'.origins)
    case WithdrawOffer(_, _, _, _) => s' == s.(ledger := s'.ledger, listings := s'.listings)
    case ReclaimHold(_, _) => s' == s.(ledger := s'.ledger)
    case AcceptOffer(_, _, _, _, _) =>
      s' == s.(ledger := s'.ledger, listings := s'.listings, loans := s'.loans, receipts := s'.receipts)
    case RepayLoan(_, _, _, _) => s' == s.(ledger := s'.ledger, loans := s'.loans, receipts := s'.receipts)
    case MarkDefault(_, _) => s' == s.(loans := s'.loans)
    case ClaimReceipt(_, _) => s' == s.(receipts := s'.receipts)
    case ScheduleLiquidation(_, _, _, _) => s' == s.(sales := s'.sales)
    case OpenLiquidation(_, _) => s' == s.(sales := s'.sales)
    case PlaceBid(_, _, _, _, _) =>
      s' == s.(ledger := s'.ledger, sales := s'.sales, bidSlots := s'.bidSlots, origins := s'.origins)
    case ReclaimBid(_, _, _) => s' == s.(ledger := s'.ledger)
    case CloseLiquidation(_) =>
      s' == s.(ledger := s'.ledger, receipts := s'.receipts, loans := s'.loans, sales := s'.sales)
  }

  lemma PlainFrame(s: State, c: Command)
    requires IsPlain(c)
    ensures WritesOnlyItsTables(c, s, PlainStep(s, c).state)
  {}

  lemma ListingFrame(s: State, c: Command)
    requires c.CreateListing? || c.PublishListing? || c.CancelListing?
    ensures WritesOnlyItsTables(c, s, MarketStep(s, c).state)
  {}

  lemma PlaceOfferFrame(s: State, c: Command)
    requires c.PlaceOffer?
    ensures WritesOnlyItsTables(c, s, PlaceOfferStep(s, c).state)
  {}

  lemma WithdrawOfferFrame(s: State, c: Command)
    requires c.WithdrawOffer?
    ensures WritesOnlyItsTables(c, s, WithdrawOfferStep(s, c).state)
  {}

  lemma ReclaimHoldFrame(s: State, c: Command)
    requires c.ReclaimHold?
    ensures WritesOnlyItsTables(c, s, ReclaimHoldStep(s, c).state)
  {}

  lemma AcceptOfferFrame(s: State, c: Command)
    requires c.AcceptOffer?
    ensures WritesOnlyItsTables(c, s, AcceptOfferStep(s, c).state)
  {}

  lemma RepayLoanFrame(s: State, c: Command)
    requires c.RepayLoan?
    ensures WritesOnlyItsTables(c, s, RepayLoanStep(s, c).state)
  {}

  lemma MarkDefaultFrame(s: State, c: Command)
    requires c.MarkDefault?
    ensures WritesOnlyItsTables(c, s, MarkDefaultStep(s, c).state)
  {}

  lemma ClaimReceiptFrame(s: State, c: Command)
    requires c.ClaimReceipt?
    ensures WritesOnlyItsTables(c, s, ClaimReceiptStep(s, c).state)
  {}

  lemma ScheduleFrame(s: State, c: Command)
    requires c.ScheduleLiquidation?
    ensures WritesOnlyItsTables(c, s, ScheduleLiquidationStep(s, c).state)
  {}

  lemma OpenFrame(s: State, c: Command)
    requires c.OpenLiquidation?
    ensures WritesOnlyItsTables(c, s, OpenLiquidationStep(s, c).state)
  {}

  lemma PlaceBidFrame(s: State, c: Command)
    requires c.PlaceBid?
    ensures WritesOnlyItsTables(c, s, PlaceBidStep(s, c).state)
  {}

  lemma ReclaimBidFrame(s: State, c: Command)
    requires c.ReclaimBid?
    ensures WritesOnlyItsTables(c, s, ReclaimBidStep(s, c).state)
  {}

  lemma SettleSaleFrame(s: State, x: SaleId, closed: ClosedSale, posted: L.Posted)
    requires x in s.sales && s.sales[x].loan in s.loans
    ensures var s' := SettleSale(s, x, closed, posted).state;
            s' == s.(ledger := s'.ledger, receipts := s'.receipts, loans := s'.loans, sales := s'.sales)
  {}

  /** A close that does anything settles the sale. */
  lemma CloseSettles(s: State, c: Command) returns (closed: ClosedSale, posted: L.Posted)
    requires c.CloseLiquidation? && CloseLiquidationStep(s, c).state != s
    ensures c.saleId in s.sales && s.sales[c.saleId].loan in s.loans && Close(s.sales[c.saleId]) == Ok(closed)
    ensures CloseLiquidationStep(s, c) == SettleSale(s, c.saleId, closed, posted)
  {
    closed := Close(s.sales[c.saleId]).value;
    var loan := s.loans[s.sales[c.saleId].loan];
    posted := L.Release(s.ledger, closed.winningBid.hold, SettlementLines(loan, closed.winningBid, s.now),
                        L.SettleLiquidationKind).value;
  }

  lemma CloseLiquidationFrame(s: State, c: Command)
    requires c.CloseLiquidation?
    ensures WritesOnlyItsTables(c, s, CloseLiquidationStep(s, c).state)
  {
    if CloseLiquidationStep(s, c).state != s {
      var closed, posted := CloseSettles(s, c);
      SettleSaleFrame(s, c.saleId, closed, posted);
    }
  }

  lemma MarketFrame(s: State, c: Command)
    requires IsMarket(c)
    ensures WritesOnlyItsTables(c, s, MarketStep(s, c).state)
  {
    if c.PlaceOffer? {
      PlaceOfferFrame(s, c);
    } else if c.WithdrawOffer? {
      WithdrawOfferFrame(s, c);
    } else if c.ReclaimHold? {
      ReclaimHoldFrame(s, c);
    } else {
      ListingFrame(s, c);
    }
  }

  lemma LendingFrame(s: State, c: Command)
    requires IsLending(c)
    ensures WritesOnlyItsTables(c, s, LendingStep(s, c).state)
  {
    if c.AcceptOffer? {
      AcceptOfferFrame(s, c);
    } else if c.RepayLoan? {
      RepayLoanFrame(s, c);
    } else if c.MarkDefault? {
      MarkDefaultFrame(s, c);
    } else {
      ClaimReceiptFrame(s, c);
    }
  }

  lemma AuctionFrame(s: State, c: Command)
    requires IsAuction(c)
    ensures WritesOnlyItsTables(c, s, AuctionStep(s, c).state)
  {
    if c.PlaceBid? {
      PlaceBidFrame(s, c);
    } else if c.ReclaimBid? {
      ReclaimBidFrame(s, c);
    } else if c.CloseLiquidation? {
      CloseLiquidationFrame(s, c);
    } else if c.ScheduleLiquidation? {
      ScheduleFrame(s, c);
    } else {
      OpenFrame(s, c);
    }
  }

  // ----- a refusal writes nothing -----

  lemma RefusedWithdrawOffer(s: State, c: Command)
    requires c.WithdrawOffer? && WithdrawOfferStep(s, c).result.Err?
    ensures WithdrawOfferStep(s, c).state == s
  {}

  lemma RefusedReclaimHold(s: State, c: Command)
    requires c.ReclaimHold? && ReclaimHoldStep(s, c).result.Err?
    ensures ReclaimHoldStep(s, c).state == s
  {}

  lemma RefusedPlaceOffer(s: State, c: Command)
    requires c.PlaceOffer? && PlaceOfferStep(s, c).result.Err?
    ensures PlaceOfferStep(s, c).state == s
  {}

  lemma RefusedPlaceBid(s: State, c: Command)
    requires c.PlaceBid? && PlaceBidStep(s, c).result.Err?
    ensures PlaceBidStep(s, c).state == s
  {}

  lemma RefusedReclaimBid(s: State, c: Command)
    requires c.ReclaimBid? && ReclaimBidStep(s, c).result.Err?
    ensures ReclaimBidStep(s, c).state == s
  {}

  // ----- every command -----

  lemma StepFrame(s: State, c: Command)
    ensures WritesOnlyItsTables(c, s, Step(s, c).state)
  {
    if IsPlain(c) {
      PlainFrame(s, c);
    } else if IsMarket(c) {
      MarketFrame(s, c);
    } else if IsLending(c) {
      LendingFrame(s, c);
    } else {
      AuctionFrame(s, c);
    }
  }
}
