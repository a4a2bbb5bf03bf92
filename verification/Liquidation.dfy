/** The liquidation auction: its book of bids and its transitions. */
module Liquidations {
  import opened Shared
  import opened CustodyReceipts
  import opened Loans
  import opened Marketplace

  type BidId = nat

  datatype Bid = Bid(id: BidId, bidder: UserId, amount: int, hold: HoldId, placedAt: Instant)

  datatype SaleStatus = SaleScheduled | SaleBidding | SaleSettled | SaleCancelled

  datatype Sale = Sale(
    loan: LoanId,
    receipt: ReceiptId,
    reservePrice: int,
    status: SaleStatus,
    opensAt: Option<Instant>,
    closesAt: Option<Instant>,
    bids: seq<Bid>,
    winningBid: Option<BidId>)

  /** The holding period must have run since the default. */
  function CanBeScheduled(defaultedAt: Instant, now: Instant, parameters: Parameters): Result<()> {
    if now < defaultedAt + parameters.statutoryHoldingPeriodMs then Err(HoldingPeriodActive) else Ok(())
  }

  function Schedule(loan: LoanId, receipt: ReceiptId, reservePrice: int): Sale {
    Sale(loan, receipt, reservePrice, SaleScheduled, None, None, [], None)
  }

  function Open(sale: Sale, now: Instant, closesAt: Instant): Result<Sale> {
    if sale.status != SaleScheduled then Err(LiquidationNotScheduled)
    else Ok(sale.(status := SaleBidding, opensAt := Some(now), closesAt := Some(closesAt)))
  }

  /** A left fold that keeps the first of the highest bids. */
  function HighestBid(bids: seq<Bid>): Option<Bid> {
    if bids == [] then None
    else
      var last := bids[|bids| - 1];
      var highest := HighestBid(bids[..|bids| - 1]);
      if highest.None? || last.amount > highest.value.amount then Some(last) else highest
  }

  /** A bid must clear the reserve and beat the standing high bid, before the close. */
  function PlaceBid(sale: Sale, bid: Bid, now: Instant): Result<Sale> {
    if sale.status != SaleBidding then Err(LiquidationNotOpen)
    else if sale.closesAt.Some? && !(sale.closesAt.value > now) then Err(LiquidationNotOpen)
    else if bid.amount < sale.reservePrice then Err(BidBelowReserve)
    else
      var standing := HighestBid(sale.bids);
      if standing.Some? && !(bid.amount > standing.value.amount) then Err(BidBelowReserve)
      else Ok(sale.(bids := sale.bids + [bid]))
  }

  datatype ClosedSale = ClosedSale(sale: Sale, winningBid: Bid)

  function Close(sale: Sale): Result<ClosedSale> {
    if sale.status != SaleBidding then Err(LiquidationNotOpen)
    else
      var winning := HighestBid(sale.bids);
      if winning.None? then Err(LiquidationNotOpen)
      else Ok(ClosedSale(sale.(status := SaleSettled, winningBid := Some(winning.value.id)), winning.value))
  }

  function FindBid(bids: seq<Bid>, id: BidId): (found: Option<nat>)
    ensures found.Some? ==> found.value < |bids| && bids[found.value].id == id
    ensures found.None? <==> forall i :: 0 <= i < |bids| ==> bids[i].id != id
  {
    if bids == [] then None
    else
      var earlier := FindBid(bids[..|bids| - 1], id);
      if earlier.Some? then earlier
      else if bids[|bids| - 1].id == id then Some(|bids| - 1)
      else None
  }

  /** The winning bid of a settled sale is spent and the standing high bid of a live one is in play;
      everything else is the bidder's to take back. */
  predicate IsReclaimable(highest: Option<Bid>, winningBid: Option<BidId>, bid: Bid) {
    if winningBid.Some? then winningBid.value != bid.id
    else highest.None? || highest.value.id != bid.id
  }

  // ----- the book only moves upwards -----

  ghost predicate StrictlyRising(bids: seq<Bid>) {
    forall i, j :: 0 <= i < j < |bids| ==> bids[i].amount < bids[j].amount
  }

  /** On a rising book the high bid is the last one placed. */
  lemma {:induction false} HighestIsLast(bids: seq<Bid>)
    requires StrictlyRising(bids) && bids != []
    ensures HighestBid(bids) == Some(bids[|bids| - 1])
  {
    if |bids| > 1 {
      HighestIsLast(bids[..|bids| - 1]);
    }
  }

  /** The high bid stands at `i`: nothing exceeds it, and everything before it is lower. */
  ghost predicate FirstOfTheHighest(bids: seq<Bid>, i: nat) {
    && i < |bids|
    && (forall j :: 0 <= j < |bids| ==> bids[j].amount <= bids[i].amount)
    && (forall j :: 0 <= j < i ==> bids[j].amount < bids[i].amount)
  }

  lemma {:induction false} HighestIsTheFirst(bids: seq<Bid>) returns (i: nat)
    requires bids != []
    ensures FirstOfTheHighest(bids, i) && HighestBid(bids) == Some(bids[i])
  {
    var init, last := bids[..|bids| - 1], |bids| - 1;
    if init == [] {
      i := 0;
    } else {
      i := HighestIsTheFirst(init);
      FirstAfterOneMore(bids, i);
      if bids[last].amount > bids[i].amount { i := last; }
    }
  }

  lemma FirstAfterOneMore(bids: seq<Bid>, i: nat)
    requires bids != [] && FirstOfTheHighest(bids[..|bids| - 1], i)
    ensures FirstOfTheHighest(bids, if bids[|bids| - 1].amount > bids[i].amount then |bids| - 1 else i)
  {
    var init := bids[..|bids| - 1];
    forall j | 0 <= j < |init| ensures bids[j].amount <= bids[i].amount {
      assert init[j].amount <= init[i].amount;
    }
    forall j | 0 <= j < i ensures bids[j].amount < bids[i].amount {
      assert init[j].amount < init[i].amount;
    }
  }

  /** Whatever the order, the fold returns a bid of the book that no other bid exceeds, and of those the first. */
  lemma HighestIsMaximum(bids: seq<Bid>)
    requires bids != []
    ensures HighestBid(bids).Some? && HighestBid(bids).value in bids
    ensures forall bid :: bid in bids ==> bid.amount <= HighestBid(bids).value.amount
    ensures exists i: nat :: FirstOfTheHighest(bids, i) && HighestBid(bids) == Some(bids[i])
  {
    var i := HighestIsTheFirst(bids);
  }

  /** The repository reloads the book in id order; on a rising book every order gives the same high bid. */
  lemma HighestIgnoresOrder(placed: seq<Bid>, reloaded: seq<Bid>)
    requires StrictlyRising(placed) && multiset(placed) == multiset(reloaded)
    ensures HighestBid(reloaded) == HighestBid(placed)
  {
    if placed == [] {
      assert |multiset(reloaded)| == 0;
      assert reloaded == [];
    } else {
      assert |multiset(reloaded)| == |placed|;
      HighestIsMaximum(placed);
      HighestIsMaximum(reloaded);
      var a, b := HighestBid(placed).value, HighestBid(reloaded).value;
      assert a in multiset(reloaded) && b in multiset(placed);
      assert a.amount == b.amount;
    }
  }

  /** An accepted bid keeps the book rising and above the reserve, and becomes the high bid. */
  lemma PlacedBidRaisesTheBook(sale: Sale, bid: Bid, now: Instant)
    requires StrictlyRising(sale.bids)
    requires forall i :: 0 <= i < |sale.bids| ==> sale.bids[i].amount >= sale.reservePrice
    requires PlaceBid(sale, bid, now).Ok?
    ensures var after := PlaceBid(sale, bid, now).value;
            && StrictlyRising(after.bids)
            && (forall i :: 0 <= i < |after.bids| ==> after.bids[i].amount >= after.reservePrice)
            && HighestBid(after.bids) == Some(bid)
  {
    var after := sale.bids + [bid];
    if sale.bids != [] {
      HighestIsLast(sale.bids);
    }
    forall i, j | 0 <= i < j < |after| ensures after[i].amount < after[j].amount {
      if j == |sale.bids| && i + 1 < j {
        assert sale.bids[i].amount < sale.bids[j - 1].amount;
      }
    }
    HighestIsLast(after);
  }
}
