/** How the proceeds of a liquidation sale are split. */
module Waterfall {
  import opened Shared
  import opened Money
  import opened Distributions

  function Distribute(proceeds: int, owed: int, noteHolder: UserId, borrower: UserId,
                      feeBasisPoints: nat): seq<Distribution> {
    var toLender := if proceeds < owed then proceeds else owed;
    var remainder := proceeds - toLender;
    var fee := MultiplyByBasisPoints(remainder, feeBasisPoints);
    var surplus := remainder - fee;
    var lines := [Distribution(User(noteHolder), toLender),
                  Distribution(PlatformFeeRevenue, fee),
                  Distribution(User(borrower), surplus)];
    lines + [Distribution(PlatformRounding, proceeds - Total(lines))]
  }

  lemma TotalOfFour(a: Distribution, b: Distribution, c: Distribution, d: Distribution)
    ensures Total([a, b, c]) == a.amount + b.amount + c.amount
    ensures Total([a, b, c, d]) == a.amount + b.amount + c.amount + d.amount
  {
    assert [a, b, c] == (([] + [a]) + [b]) + [c];
    TotalAppend([], a);
    TotalAppend([] + [a], b);
    TotalAppend([] + [a] + [b], c);
    assert [a, b, c, d] == [a, b, c] + [d];
    TotalAppend([a, b, c], d);
  }

  /** Who is paid what: the note holder the smaller of proceeds and debt, the platform its share of the rest rounded
      down, the borrower what then remains, and rounding nothing. */
  lemma PartiesAndAmounts(proceeds: int, owed: int, noteHolder: UserId, borrower: UserId, feeBasisPoints: nat)
    requires proceeds >= 0 && owed >= 0
    ensures var toLender := if proceeds < owed then proceeds else owed;
            var fee := (proceeds - toLender) * feeBasisPoints / 10_000;
            Distribute(proceeds, owed, noteHolder, borrower, feeBasisPoints)
              == [Distribution(User(noteHolder), toLender),
                  Distribution(PlatformFeeRevenue, fee),
                  Distribution(User(borrower), proceeds - toLender - fee),
                  Distribution(PlatformRounding, 0)]
  {
    var lines := Distribute(proceeds, owed, noteHolder, borrower, feeBasisPoints);
    TotalOfFour(lines[0], lines[1], lines[2], lines[3]);
    BasisPointsWithin(proceeds - lines[0].amount, feeBasisPoints);
    assert (proceeds - lines[0].amount) * feeBasisPoints >= 0;
  }

  /** So every party receives exactly that, also when the note holder and the borrower are the same user. */
  lemma PaysEachParty(proceeds: int, owed: int, noteHolder: UserId, borrower: UserId, feeBasisPoints: nat, party: Party)
    requires proceeds >= 0 && owed >= 0
    ensures var toLender := if proceeds < owed then proceeds else owed;
            var fee := (proceeds - toLender) * feeBasisPoints / 10_000;
            PaidTo(Distribute(proceeds, owed, noteHolder, borrower, feeBasisPoints), party)
              == (if party == User(noteHolder) then toLender else 0)
               + (if party == PlatformFeeRevenue then fee else 0)
               + (if party == User(borrower) then proceeds - toLender - fee else 0)
  {
    var lines := Distribute(proceeds, owed, noteHolder, borrower, feeBasisPoints);
    PartiesAndAmounts(proceeds, owed, noteHolder, borrower, feeBasisPoints);
    assert lines == [] + [lines[0]] + [lines[1]] + [lines[2]] + [lines[3]];
    PaidToAppend([], lines[0], party);
    PaidToAppend([] + [lines[0]], lines[1], party);
    PaidToAppend([] + [lines[0]] + [lines[1]], lines[2], party);
    PaidToAppend([] + [lines[0]] + [lines[1]] + [lines[2]], lines[3], party);
  }

  /** The parts are the whole for any figures at all; with a sensible debt and fee no part is negative,
      the note holder gets the smaller of proceeds and debt, nobody behind them is paid before they are
      whole, the platform's fee is its share of what is left, the borrower gets the rest, and rounding is nothing. */
  lemma PartsAreTheWhole(proceeds: int, owed: int, noteHolder: UserId, borrower: UserId, feeBasisPoints: nat)
    ensures var lines := Distribute(proceeds, owed, noteHolder, borrower, feeBasisPoints);
            |lines| == 4 && Total(lines) == proceeds && lines[3].amount == 0
    ensures var lines := Distribute(proceeds, owed, noteHolder, borrower, feeBasisPoints);
            proceeds >= 0 && owed >= 0 && feeBasisPoints <= BasisPointScale ==>
              && (forall i :: 0 <= i < 4 ==> lines[i].amount >= 0)
              && lines[0].amount == (if proceeds < owed then proceeds else owed)
              && (lines[1].amount > 0 || lines[2].amount > 0 ==> lines[0].amount == owed)
              && (proceeds >= owed ==> lines[1].amount + lines[2].amount == proceeds - owed)
    ensures var lines := Distribute(proceeds, owed, noteHolder, borrower, feeBasisPoints);
            var rest := if proceeds < owed then 0 else proceeds - owed;
            proceeds >= 0 && owed >= 0 ==>
              && lines[0].party == User(noteHolder) && lines[3].party == PlatformRounding
              && lines[1] == Distribution(PlatformFeeRevenue, rest * feeBasisPoints / 10_000)
              && lines[2] == Distribution(User(borrower), rest - lines[1].amount)
  {
    var lines := Distribute(proceeds, owed, noteHolder, borrower, feeBasisPoints);
    TotalOfFour(lines[0], lines[1], lines[2], lines[3]);
    assert lines == [lines[0], lines[1], lines[2]] + [lines[3]];
    assert [lines[0], lines[1], lines[2], lines[3]] == lines;
    if proceeds >= 0 && owed >= 0 {
      PartiesAndAmounts(proceeds, owed, noteHolder, borrower, feeBasisPoints);
      BasisPointsWithin(proceeds - lines[0].amount, feeBasisPoints);
    }
  }

  /** A higher sale price leaves nobody worse off. */
  lemma EveryLineMonotone(proceeds: int, proceeds': int, owed: int, noteHolder: UserId, borrower: UserId,
                          feeBasisPoints: nat)
    requires 0 <= proceeds <= proceeds' && owed >= 0 && feeBasisPoints <= BasisPointScale
    ensures var low := Distribute(proceeds, owed, noteHolder, borrower, feeBasisPoints);
            var high := Distribute(proceeds', owed, noteHolder, borrower, feeBasisPoints);
            forall i :: 0 <= i < 4 ==> low[i].amount <= high[i].amount
  {
    PartsAreTheWhole(proceeds, owed, noteHolder, borrower, feeBasisPoints);
    PartsAreTheWhole(proceeds', owed, noteHolder, borrower, feeBasisPoints);
    var lower := if proceeds < owed then 0 else proceeds - owed;
    var upper := if proceeds' < owed then 0 else proceeds' - owed;
    BasisPointsMonotone(lower, upper, feeBasisPoints);
    RemainderMonotone(lower, upper, feeBasisPoints);
  }
}
