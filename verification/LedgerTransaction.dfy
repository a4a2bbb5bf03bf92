/** A double-entry transaction: at least two entries, every amount positive, and debits equal to
    credits in every currency. */
module LedgerTransaction {
  import opened Shared
  import opened Distributions

  type Currency = string

  const AUD: Currency := "AUD"

  /** The chart of accounts: two accounts per user and three for the platform. */
  datatype Account =
    | UserAvailable(user: UserId)
    | UserHeld(user: UserId)
    | FeeRevenueAccount
    | RoundingAccount
    | FloatAccount

  datatype Direction = DebitSide | CreditSide

  datatype Entry = Entry(account: Account, direction: Direction, minorUnits: int, currency: Currency)

  function Debit(account: Account, minorUnits: int): Entry {
    Entry(account, DebitSide, minorUnits, AUD)
  }

  function Credit(account: Account, minorUnits: int): Entry {
    Entry(account, CreditSide, minorUnits, AUD)
  }

  /** The spendable account of a party: platform sentinels map to the platform accounts. */
  function Resolve(party: Party): Account {
    match party
    case User(id) => UserAvailable(id)
    case PlatformFeeRevenue => FeeRevenueAccount
    case PlatformRounding => RoundingAccount
    case PlatformFloat => FloatAccount
  }

  function SideTotal(entries: seq<Entry>, side: Direction, currency: Currency): int {
    if entries == [] then 0
    else
      var last := entries[|entries| - 1];
      SideTotal(entries[..|entries| - 1], side, currency)
      + (if last.direction == side && last.currency == currency then last.minorUnits else 0)
  }

  predicate Positive(entries: seq<Entry>) {
    forall i :: 0 <= i < |entries| ==> entries[i].minorUnits > 0
  }

  ghost predicate Balanced(entries: seq<Entry>) {
    forall currency :: SideTotal(entries, DebitSide, currency) == SideTotal(entries, CreditSide, currency)
  }

  ghost predicate Buildable(entries: seq<Entry>) {
    |entries| >= 2 && Positive(entries) && Balanced(entries)
  }

  /** Which refusal comes first: too short, then a non-positive amount, then an imbalance. */
  ghost function BuildOutcome(entries: seq<Entry>): Result<seq<Entry>> {
    if |entries| < 2 then Err(UnbalancedTransaction)
    else if !Positive(entries) then Err(NonPositiveEntryAmount)
    else if !Balanced(entries) then Err(UnbalancedTransaction)
    else Ok(entries)
  }

  datatype Sums = Sums(debits: int, credits: int)

  lemma SideTotalAppend(entries: seq<Entry>, entry: Entry, side: Direction, currency: Currency)
    ensures SideTotal(entries + [entry], side, currency)
         == SideTotal(entries, side, currency)
          + (if entry.direction == side && entry.currency == currency then entry.minorUnits else 0)
  {
    assert (entries + [entry])[..|entries|] == entries;
  }

  lemma {:induction false} AbsentCurrency(entries: seq<Entry>, side: Direction, currency: Currency)
    requires forall i :: 0 <= i < |entries| ==> entries[i].currency != currency
    ensures SideTotal(entries, side, currency) == 0
  {
    if entries != [] {
      AbsentCurrency(entries[..|entries| - 1], side, currency);
    }
  }

  ghost predicate SumsOf(sums: map<Currency, Sums>, entries: seq<Entry>) {
    && (forall i :: 0 <= i < |entries| ==> entries[i].currency in sums)
    && (forall currency :: currency in sums ==>
          && sums[currency].debits == SideTotal(entries, DebitSide, currency)
          && sums[currency].credits == SideTotal(entries, CreditSide, currency))
  }

  function AddToSum(sums: map<Currency, Sums>, entry: Entry): Sums {
    var sum := if entry.currency in sums then sums[entry.currency] else Sums(0, 0);
    if entry.direction == DebitSide
    then sum.(debits := sum.debits + entry.minorUnits)
    else sum.(credits := sum.credits + entry.minorUnits)
  }

  lemma SumsOfAppend(sums: map<Currency, Sums>, entries: seq<Entry>, entry: Entry)
    requires SumsOf(sums, entries)
    ensures SumsOf(sums[entry.currency := AddToSum(sums, entry)], entries + [entry])
  {
    var sums' := sums[entry.currency := AddToSum(sums, entry)];
    if entry.currency !in sums {
      AbsentCurrency(entries, DebitSide, entry.currency);
      AbsentCurrency(entries, CreditSide, entry.currency);
    }
    forall currency | currency in sums'
      ensures sums'[currency].debits == SideTotal(entries + [entry], DebitSide, currency)
      ensures sums'[currency].credits == SideTotal(entries + [entry], CreditSide, currency)
    {
      SideTotalAppend(entries, entry, DebitSide, currency);
      SideTotalAppend(entries, entry, CreditSide, currency);
    }
  }

  lemma BalancedBySums(sums: map<Currency, Sums>, entries: seq<Entry>)
    requires SumsOf(sums, entries)
    ensures Balanced(entries)
            <==> forall currency :: currency in sums ==> sums[currency].debits == sums[currency].credits
  {
    forall currency | currency !in sums
      ensures SideTotal(entries, DebitSide, currency) == SideTotal(entries, CreditSide, currency)
    {
      AbsentCurrency(entries, DebitSide, currency);
      AbsentCurrency(entries, CreditSide, currency);
    }
  }

  /** One pass keeps running sums per currency, a second compares them. Every list of entries is either
      refused for the first reason that applies or accepted unchanged. */
  method Build(entries: seq<Entry>) returns (built: Result<seq<Entry>>)
    ensures built == BuildOutcome(entries)
    ensures built.Ok? <==> Buildable(entries)
  {
    if |entries| < 2 {
      return Err(UnbalancedTransaction);
    }
    var sums: map<Currency, Sums> := map[];
    for i := 0 to |entries|
      invariant Positive(entries[..i])
      invariant SumsOf(sums, entries[..i])
    {
      var entry := entries[i];
      if entry.minorUnits <= 0 {
        return Err(NonPositiveEntryAmount);
      }
      SumsOfAppend(sums, entries[..i], entry);
      assert entries[..i + 1] == entries[..i] + [entry];
      var sum := if entry.currency in sums then sums[entry.currency] else Sums(0, 0);
      if entry.direction == DebitSide {
        sum := sum.(debits := sum.debits + entry.minorUnits);
      } else {
        sum := sum.(credits := sum.credits + entry.minorUnits);
      }
      sums := sums[entry.currency := sum];
    }
    assert entries[..|entries|] == entries;
    BalancedBySums(sums, entries);
    var unread := sums.Keys;
    while unread != {}
      invariant unread <= sums.Keys
      invariant forall currency :: currency in sums && currency !in unread ==>
                  sums[currency].debits == sums[currency].credits
      decreases unread
    {
      var currency :| currency in unread;
      if sums[currency].debits != sums[currency].credits {
        return Err(UnbalancedTransaction);
      }
      unread := unread - {currency};
    }
    return Ok(entries);
  }

  // ----- what a balanced transaction does to the accounts -----

  function Signed(entry: Entry): int {
    if entry.direction == CreditSide then entry.minorUnits else -entry.minorUnits
  }

  /** The movement on one account: credits less debits. */
  function Net(entries: seq<Entry>, account: Account): int {
    if entries == [] then 0
    else
      var last := entries[|entries| - 1];
      Net(entries[..|entries| - 1], account) + (if last.account == account then Signed(last) else 0)
  }

  lemma NetAppend(entries: seq<Entry>, entry: Entry, account: Account)
    ensures Net(entries + [entry], account)
              == Net(entries, account) + (if entry.account == account then Signed(entry) else 0)
  {
    assert (entries + [entry])[..|entries|] == entries;
  }

  lemma NetOfPair(first: Entry, second: Entry, account: Account)
    ensures Net([first, second], account)
         == (if first.account == account then Signed(first) else 0)
         + (if second.account == account then Signed(second) else 0)
  {
    assert [first, second] == ([] + [first]) + [second];
    NetAppend([], first, account);
    NetAppend([] + [first], second, account);
  }

  /** The credit lines a distribution turns into, in its order. */
  function Credits(lines: seq<Distribution>): seq<Entry> {
    if lines == [] then []
    else Credits(lines[..|lines| - 1]) + [Credit(Resolve(lines[|lines| - 1].party), lines[|lines| - 1].amount)]
  }

  lemma {:induction false} CreditsShape(lines: seq<Distribution>)
    ensures |Credits(lines)| == |lines|
    ensures forall i :: 0 <= i < |lines| ==> Credits(lines)[i] == Credit(Resolve(lines[i].party), lines[i].amount)
  {
    if lines != [] {
      CreditsShape(lines[..|lines| - 1]);
    }
  }

  lemma {:induction false} CreditsNet(lines: seq<Distribution>, account: Account)
    ensures account.UserHeld? ==> Net(Credits(lines), account) == 0
    ensures AllPositive(lines) ==> Net(Credits(lines), account) >= 0
  {
    if lines != [] {
      var init, last := lines[..|lines| - 1], lines[|lines| - 1];
      CreditsNet(init, account);
      NetAppend(Credits(init), Credit(Resolve(last.party), last.amount), account);
    }
  }

  lemma {:induction false} CreditsSides(lines: seq<Distribution>, currency: Currency)
    ensures SideTotal(Credits(lines), DebitSide, currency) == 0
    ensures SideTotal(Credits(lines), CreditSide, currency) == if currency == AUD then Total(lines) else 0
  {
    if lines != [] {
      var init, last := lines[..|lines| - 1], lines[|lines| - 1];
      CreditsSides(init, currency);
      var entry := Credit(Resolve(last.party), last.amount);
      SideTotalAppend(Credits(init), entry, DebitSide, currency);
      SideTotalAppend(Credits(init), entry, CreditSide, currency);
    }
  }

  lemma {:induction false} NetConcat(front: seq<Entry>, back: seq<Entry>, account: Account)
    ensures Net(front + back, account) == Net(front, account) + Net(back, account)
  {
    if back == [] {
      assert front + back == front;
    } else {
      var init, last := back[..|back| - 1], back[|back| - 1];
      NetConcat(front, init, account);
      assert front + back == (front + init) + [last];
      NetAppend(front + init, last, account);
    }
  }

  lemma {:induction false} SideTotalConcat(front: seq<Entry>, back: seq<Entry>, side: Direction, currency: Currency)
    ensures SideTotal(front + back, side, currency)
              == SideTotal(front, side, currency) + SideTotal(back, side, currency)
  {
    if back == [] {
      assert front + back == front;
    } else {
      var init, last := back[..|back| - 1], back[|back| - 1];
      SideTotalConcat(front, init, side, currency);
      assert front + back == (front + init) + [last];
      SideTotalAppend(front + init, last, side, currency);
    }
  }

  /** The entries of a hold's release: one debit of the held account, then the distribution's credits. */
  function ReleaseEntries(owner: UserId, amount: int, lines: seq<Distribution>): seq<Entry> {
    [Debit(UserHeld(owner), amount)] + Credits(lines)
  }

  lemma ReleaseNet(owner: UserId, amount: int, lines: seq<Distribution>, account: Account)
    ensures account == UserHeld(owner) ==> Net(ReleaseEntries(owner, amount, lines), account) == -amount
    ensures account.UserHeld? && account.user != owner ==> Net(ReleaseEntries(owner, amount, lines), account) == 0
    ensures !account.UserHeld? && AllPositive(lines) ==> Net(ReleaseEntries(owner, amount, lines), account) >= 0
  {
    var front := [Debit(UserHeld(owner), amount)];
    NetConcat(front, Credits(lines), account);
    NetAppend([], front[0], account);
    assert [] + front == front;
    CreditsNet(lines, account);
  }

  /** The party an account belongs to; a user's held account receives nothing. */
  predicate BelongsTo(account: Account, party: Party) {
    match account
    case UserAvailable(user) => party == User(user)
    case UserHeld(_) => false
    case FeeRevenueAccount => party == PlatformFeeRevenue
    case RoundingAccount => party == PlatformRounding
    case FloatAccount => party == PlatformFloat
  }

  lemma {:induction false} CreditsPay(lines: seq<Distribution>, account: Account, party: Party)
    requires BelongsTo(account, party)
    ensures Net(Credits(lines), account) == PaidTo(lines, party)
  {
    if lines != [] {
      var init, last := lines[..|lines| - 1], lines[|lines| - 1];
      CreditsPay(init, account, party);
      NetAppend(Credits(init), Credit(Resolve(last.party), last.amount), account);
    }
  }

  /** A release takes the hold off its owner's held account and pays every party exactly its lines. */
  lemma ReleasePays(owner: UserId, amount: int, lines: seq<Distribution>, account: Account, party: Party)
    ensures account.UserHeld? ==>
              Net(ReleaseEntries(owner, amount, lines), account) == if account.user == owner then -amount else 0
    ensures BelongsTo(account, party) ==> Net(ReleaseEntries(owner, amount, lines), account) == PaidTo(lines, party)
  {
    var front := [Debit(UserHeld(owner), amount)];
    ReleaseNet(owner, amount, lines, account);
    if BelongsTo(account, party) {
      NetConcat(front, Credits(lines), account);
      NetAppend([], front[0], account);
      assert [] + front == front;
      CreditsPay(lines, account, party);
    }
  }

  /** A release is a well-formed transaction exactly when it pays somebody, pays nobody nothing, and pays
      out what was held. */
  lemma ReleaseBuildable(owner: UserId, amount: int, lines: seq<Distribution>)
    requires amount > 0
    ensures Buildable(ReleaseEntries(owner, amount, lines))
            <==> |lines| >= 1 && AllPositive(lines) && Total(lines) == amount
  {
    CreditsShape(lines);
    ReleasePositive(owner, amount, lines);
    ReleaseBalanced(owner, amount, lines);
  }

  lemma ReleasePositive(owner: UserId, amount: int, lines: seq<Distribution>)
    requires amount > 0
    ensures Positive(ReleaseEntries(owner, amount, lines)) <==> AllPositive(lines)
  {
    var entries := ReleaseEntries(owner, amount, lines);
    CreditsShape(lines);
    if Positive(entries) {
      forall i | 0 <= i < |lines| ensures lines[i].amount > 0 {
        assert entries[i + 1] == Credits(lines)[i];
      }
    }
  }

  lemma ReleaseBalanced(owner: UserId, amount: int, lines: seq<Distribution>)
    ensures Balanced(ReleaseEntries(owner, amount, lines)) <==> Total(lines) == amount
  {
    var entries := ReleaseEntries(owner, amount, lines);
    ReleaseSides(owner, amount, lines, AUD);
    forall currency | Total(lines) == amount
      ensures SideTotal(entries, DebitSide, currency) == SideTotal(entries, CreditSide, currency)
    {
      ReleaseSides(owner, amount, lines, currency);
    }
    if Balanced(entries) {
      assert SideTotal(entries, DebitSide, AUD) == SideTotal(entries, CreditSide, AUD);
    }
  }

  lemma ReleaseSides(owner: UserId, amount: int, lines: seq<Distribution>, currency: Currency)
    ensures SideTotal(ReleaseEntries(owner, amount, lines), DebitSide, currency)
              == if currency == AUD then amount else 0
    ensures SideTotal(ReleaseEntries(owner, amount, lines), CreditSide, currency)
              == if currency == AUD then Total(lines) else 0
  {
    var front := [Debit(UserHeld(owner), amount)];
    SideTotalConcat(front, Credits(lines), DebitSide, currency);
    SideTotalConcat(front, Credits(lines), CreditSide, currency);
    SideTotalAppend([], front[0], DebitSide, currency);
    SideTotalAppend([], front[0], CreditSide, currency);
    assert [] + front == front;
    CreditsSides(lines, currency);
  }

  /** A movement between two accounts is well formed exactly when it moves something. */
  lemma PairBuildable(from: Account, to: Account, amount: int)
    ensures Buildable([Debit(from, amount), Credit(to, amount)]) <==> amount > 0
  {
    var entries := [Debit(from, amount), Credit(to, amount)];
    assert amount > 0 ==> Positive(entries);
    assert Positive(entries) ==> entries[0].minorUnits > 0;
    forall currency
      ensures SideTotal(entries, DebitSide, currency) == SideTotal(entries, CreditSide, currency)
    {
      assert entries == ([] + [entries[0]]) + [entries[1]];
      SideTotalAppend([], entries[0], DebitSide, currency);
      SideTotalAppend([], entries[0], CreditSide, currency);
      SideTotalAppend([entries[0]], entries[1], DebitSide, currency);
      SideTotalAppend([entries[0]], entries[1], CreditSide, currency);
    }
  }

  /** The movements of a transaction over every account together. */
  function SignedTotal(entries: seq<Entry>): int {
    if entries == [] then 0 else SignedTotal(entries[..|entries| - 1]) + Signed(entries[|entries| - 1])
  }

  /** A balanced transaction in the one currency the platform uses creates and destroys nothing. */
  lemma {:induction false} SignedTotalBySides(entries: seq<Entry>)
    requires forall i :: 0 <= i < |entries| ==> entries[i].currency == AUD
    ensures SignedTotal(entries) == SideTotal(entries, CreditSide, AUD) - SideTotal(entries, DebitSide, AUD)
  {
    if entries != [] {
      SignedTotalBySides(entries[..|entries| - 1]);
    }
  }
}
