/** The committed ledger: an append-only journal of transactions and the table of funds holds, with the
    four settlement operations on them. A transaction's id is its place in the journal; balances are
    never stored, always summed from the entries. */
module Ledger {
  import opened Shared
  import opened Distributions
  import opened LedgerTransaction

  type HoldId = nat
  type TransactionId = nat

  datatype HoldStatus = HoldHeld | HoldReleased | HoldRefunded

  datatype FundsHold = FundsHold(owner: UserId, amount: int, status: HoldStatus, settledBy: Option<TransactionId>)

  datatype Kind =
    | DepositKind
    | HoldFundsKind
    | RefundHoldKind
    | OriginateLoanKind
    | RepayLoanKind
    | SettleLiquidationKind
    | WithdrawKind

  datatype Transaction = Transaction(kind: Kind, reference: nat, entries: seq<Entry>)

  datatype Ledger = Ledger(journal: seq<Transaction>, holds: map<HoldId, FundsHold>)

  /** A ledger after a settlement operation, and the transaction that settled it. */
  datatype Posted = Posted(ledger: Ledger, reference: TransactionId)

  const Empty := Ledger([], map[])

  function Balance(journal: seq<Transaction>, account: Account): int {
    if journal == [] then 0
    else Balance(journal[..|journal| - 1], account) + Net(journal[|journal| - 1].entries, account)
  }

  lemma BalanceAppend(journal: seq<Transaction>, transaction: Transaction, account: Account)
    ensures Balance(journal + [transaction], account) == Balance(journal, account) + Net(transaction.entries, account)
  {
    assert (journal + [transaction])[..|journal|] == journal;
  }

  // ----- the settlement operations -----

  ghost function Write(ledger: Ledger, kind: Kind, reference: nat, entries: seq<Entry>): Result<Posted> {
    match BuildOutcome(entries)
    case Err(error) => Err(error)
    case Ok(built) =>
      Ok(Posted(ledger.(journal := ledger.journal + [Transaction(kind, reference, built)]), |ledger.journal|))
  }

  ghost function Hold(ledger: Ledger, user: UserId, amount: int, reference: nat, holdId: HoldId): Result<Posted> {
    if Balance(ledger.journal, UserAvailable(user)) < amount then Err(InsufficientFunds)
    else
      match Write(ledger, HoldFundsKind, reference,
                  [Debit(UserAvailable(user), amount), Credit(UserHeld(user), amount)])
      case Err(error) => Err(error)
      case Ok(posted) =>
        if holdId in ledger.holds then Err(DuplicateId)
        else Ok(posted.(ledger :=
          posted.ledger.(holds := ledger.holds[holdId := FundsHold(user, amount, HoldHeld, None)])))
  }

  function Settled(holds: map<HoldId, FundsHold>, holdId: HoldId, status: HoldStatus,
                   reference: TransactionId): map<HoldId, FundsHold>
    requires holdId in holds
  {
    holds[holdId := holds[holdId].(status := status, settledBy := Some(reference))]
  }

  ghost function Release(ledger: Ledger, holdId: HoldId, lines: seq<Distribution>, kind: Kind): Result<Posted> {
    if holdId !in ledger.holds then Err(FundsHoldMissing)
    else
      var row := ledger.holds[holdId];
      if row.status != HoldHeld then
        if row.status == HoldReleased && row.settledBy.Some? then Ok(Posted(ledger, row.settledBy.value))
        else Err(FundsHoldNotHeld)
      else if Total(lines) != row.amount then Err(DistributionMismatch)
      else
        match Write(ledger, kind, holdId, ReleaseEntries(row.owner, row.amount, lines))
        case Err(error) => Err(error)
        case Ok(posted) =>
          Ok(posted.(ledger := posted.ledger.(holds := Settled(ledger.holds, holdId, HoldReleased, posted.reference))))
  }

  ghost function Refund(ledger: Ledger, holdId: HoldId): Result<Posted> {
    if holdId !in ledger.holds then Err(FundsHoldMissing)
    else
      var row := ledger.holds[holdId];
      if row.status != HoldHeld then
        if row.status == HoldRefunded && row.settledBy.Some? then Ok(Posted(ledger, row.settledBy.value))
        else Err(FundsHoldNotHeld)
      else
        match Write(ledger, RefundHoldKind, holdId,
                    [Debit(UserHeld(row.owner), row.amount), Credit(UserAvailable(row.owner), row.amount)])
        case Err(error) => Err(error)
        case Ok(posted) =>
          Ok(posted.(ledger := posted.ledger.(holds := Settled(ledger.holds, holdId, HoldRefunded, posted.reference))))
  }

  /** The kind is read off the participants: the float is the counterparty of external movement. */
  function TransferKind(from: Party, to: Party): Kind {
    if from == PlatformFloat then DepositKind else if to == PlatformFloat then WithdrawKind else RepayLoanKind
  }

  ghost function Transfer(ledger: Ledger, from: Party, to: Party, amount: int, reference: nat): Result<Posted> {
    if from != PlatformFloat && Balance(ledger.journal, Resolve(from)) < amount then Err(InsufficientFunds)
    else Write(ledger, TransferKind(from, to), reference, [Debit(Resolve(from), amount), Credit(Resolve(to), amount)])
  }

  // ----- what every ledger keeps -----

  function HeldAmount(hold: FundsHold, user: UserId): int {
    if hold.status == HoldHeld && hold.owner == user then hold.amount else 0
  }

  /** The sum of one owner's holds that are still held. */
  ghost function HeldTotal(holds: map<HoldId, FundsHold>, user: UserId): int {
    if holds == map[] then 0
    else
      var holdId :| holdId in holds;
      HeldAmount(holds[holdId], user) + HeldTotal(holds - {holdId}, user)
  }

  predicate IsSettlement(transaction: Transaction) {
    transaction.kind == RefundHoldKind || transaction.kind == OriginateLoanKind
    || transaction.kind == SettleLiquidationKind
  }

  ghost predicate TransactionSound(transaction: Transaction) {
    && Buildable(transaction.entries)
    && (forall i :: 0 <= i < |transaction.entries| ==> transaction.entries[i].currency == AUD)
  }

  ghost predicate JournalSound(journal: seq<Transaction>) {
    forall t :: 0 <= t < |journal| ==> TransactionSound(journal[t])
  }

  /** A settled hold names the one transaction that settled it, and a settling transaction names its hold. */
  ghost predicate SettlementsMatch(journal: seq<Transaction>, holds: map<HoldId, FundsHold>) {
    && (forall holdId :: holdId in holds ==>
          var hold := holds[holdId];
          && hold.amount > 0
          && (hold.status == HoldHeld <==> hold.settledBy == None)
          && (hold.settledBy.Some? ==>
                && hold.settledBy.value < |journal|
                && IsSettlement(journal[hold.settledBy.value])
                && journal[hold.settledBy.value].reference == holdId
                && (hold.status == HoldRefunded <==> journal[hold.settledBy.value].kind == RefundHoldKind)))
    && (forall t :: 0 <= t < |journal| && IsSettlement(journal[t]) ==>
          && journal[t].reference in holds
          && holds[journal[t].reference].settledBy == Some(t))
  }

  ghost predicate HeldAgrees(journal: seq<Transaction>, holds: map<HoldId, FundsHold>) {
    forall user :: Balance(journal, UserHeld(user)) == HeldTotal(holds, user)
  }

  ghost predicate NoOverdraft(journal: seq<Transaction>) {
    forall account :: account != FloatAccount ==> Balance(journal, account) >= 0
  }

  ghost predicate Sound(ledger: Ledger) {
    && JournalSound(ledger.journal)
    && SettlementsMatch(ledger.journal, ledger.holds)
    && HeldAgrees(ledger.journal, ledger.holds)
    && NoOverdraft(ledger.journal)
  }

  // ----- sums over the hold table -----

  lemma {:induction false} HeldTotalRemove(holds: map<HoldId, FundsHold>, holdId: HoldId, user: UserId)
    requires holdId in holds
    ensures HeldTotal(holds, user) == HeldAmount(holds[holdId], user) + HeldTotal(holds - {holdId}, user)
    decreases |holds|
  {
    var first :| first in holds
                 && HeldTotal(holds, user) == HeldAmount(holds[first], user) + HeldTotal(holds - {first}, user);
    if first != holdId {
      HeldTotalRemove(holds - {first}, holdId, user);
      HeldTotalRemove(holds - {holdId}, first, user);
      assert holds - {first} - {holdId} == holds - {holdId} - {first};
    }
  }

  lemma HeldTotalUpdate(holds: map<HoldId, FundsHold>, holdId: HoldId, hold: FundsHold, user: UserId)
    ensures HeldTotal(holds[holdId := hold], user)
         == HeldTotal(holds, user) + HeldAmount(hold, user)
         - (if holdId in holds then HeldAmount(holds[holdId], user) else 0)
  {
    var updated := holds[holdId := hold];
    HeldTotalRemove(updated, holdId, user);
    assert updated - {holdId} == holds - {holdId};
    if holdId in holds {
      HeldTotalRemove(holds, holdId, user);
    } else {
      assert holds - {holdId} == holds;
    }
  }

  /** A held amount is part of its owner's total. */
  lemma HeldAmountWithin(holds: map<HoldId, FundsHold>, holdId: HoldId)
    requires holdId in holds
    requires forall h :: h in holds ==> holds[h].amount > 0
    ensures HeldAmount(holds[holdId], holds[holdId].owner) <= HeldTotal(holds, holds[holdId].owner)
  {
    HeldTotalRemove(holds, holdId, holds[holdId].owner);
    HeldTotalNonNegative(holds - {holdId}, holds[holdId].owner);
  }

  lemma {:induction false} HeldTotalNonNegative(holds: map<HoldId, FundsHold>, user: UserId)
    requires forall h :: h in holds ==> holds[h].amount > 0
    ensures HeldTotal(holds, user) >= 0
    decreases |holds|
  {
    if holds != map[] {
      var first :| first in holds;
      HeldTotalRemove(holds, first, user);
      HeldTotalNonNegative(holds - {first}, user);
    }
  }

  // ----- every operation keeps the ledger sound -----

  lemma EmptyIsSound()
    ensures Sound(Empty)
  {
  }

  lemma JournalAppend(journal: seq<Transaction>, transaction: Transaction)
    requires JournalSound(journal) && TransactionSound(transaction)
    ensures JournalSound(journal + [transaction])
  {
  }

  lemma PlainAppendKeepsMatch(journal: seq<Transaction>, holds: map<HoldId, FundsHold>, transaction: Transaction)
    requires SettlementsMatch(journal, holds) && !IsSettlement(transaction)
    ensures SettlementsMatch(journal + [transaction], holds)
  {
    var journal' := journal + [transaction];
    forall t | 0 <= t < |journal'| && IsSettlement(journal'[t])
      ensures journal'[t].reference in holds && holds[journal'[t].reference].settledBy == Some(t)
    {
      assert t < |journal|;
    }
  }

  lemma SettleKeepsMatch(journal: seq<Transaction>, holds: map<HoldId, FundsHold>, transaction: Transaction,
                         status: HoldStatus)
    requires SettlementsMatch(journal, holds) && IsSettlement(transaction)
    requires transaction.reference in holds && holds[transaction.reference].status == HoldHeld
    requires status != HoldHeld && (status == HoldRefunded <==> transaction.kind == RefundHoldKind)
    ensures SettlementsMatch(journal + [transaction], Settled(holds, transaction.reference, status, |journal|))
  {
    var journal' := journal + [transaction];
    var holds' := Settled(holds, transaction.reference, status, |journal|);
    forall t | 0 <= t < |journal'| && IsSettlement(journal'[t])
      ensures journal'[t].reference in holds' && holds'[journal'[t].reference].settledBy == Some(t)
    {
      if t < |journal| {
        assert journal'[t] == journal[t];
      }
    }
  }

  /** Moving a positive, covered amount out of a spendable account overdraws nothing. */
  lemma PairKeepsNoOverdraft(journal: seq<Transaction>, transaction: Transaction, from: Account, to: Account,
                             amount: int)
    requires NoOverdraft(journal) && amount > 0
    requires transaction.entries == [Debit(from, amount), Credit(to, amount)]
    requires from == FloatAccount || Balance(journal, from) >= amount
    ensures NoOverdraft(journal + [transaction])
  {
    forall account | account != FloatAccount
      ensures Balance(journal + [transaction], account) >= 0
    {
      BalanceAppend(journal, transaction, account);
      NetOfPair(transaction.entries[0], transaction.entries[1], account);
    }
  }

  lemma HoldKeepsSound(ledger: Ledger, user: UserId, amount: int, reference: nat, holdId: HoldId)
    requires Sound(ledger)
    requires Hold(ledger, user, amount, reference, holdId).Ok?
    ensures Sound(Hold(ledger, user, amount, reference, holdId).value.ledger)
  {
    var entries := [Debit(UserAvailable(user), amount), Credit(UserHeld(user), amount)];
    PairBuildable(UserAvailable(user), UserHeld(user), amount);
    var transaction := Transaction(HoldFundsKind, reference, entries);
    var hold := FundsHold(user, amount, HoldHeld, None);
    JournalAppend(ledger.journal, transaction);
    PlainAppendKeepsMatch(ledger.journal, ledger.holds, transaction);
    PairKeepsNoOverdraft(ledger.journal, transaction, UserAvailable(user), UserHeld(user), amount);
    forall other
      ensures Balance(ledger.journal + [transaction], UserHeld(other)) == HeldTotal(ledger.holds[holdId := hold], other)
    {
      BalanceAppend(ledger.journal, transaction, UserHeld(other));
      NetOfPair(entries[0], entries[1], UserHeld(other));
      HeldTotalUpdate(ledger.holds, holdId, hold, other);
    }
  }

  lemma RefundKeepsSound(ledger: Ledger, holdId: HoldId)
    requires Sound(ledger)
    requires Refund(ledger, holdId).Ok?
    ensures Sound(Refund(ledger, holdId).value.ledger)
  {
    var row := ledger.holds[holdId];
    if row.status == HoldHeld {
      var entries := [Debit(UserHeld(row.owner), row.amount), Credit(UserAvailable(row.owner), row.amount)];
      PairBuildable(UserHeld(row.owner), UserAvailable(row.owner), row.amount);
      var transaction := Transaction(RefundHoldKind, holdId, entries);
      JournalAppend(ledger.journal, transaction);
      SettleKeepsMatch(ledger.journal, ledger.holds, transaction, HoldRefunded);
      HeldAmountWithin(ledger.holds, holdId);
      assert Balance(ledger.journal, UserHeld(row.owner)) == HeldTotal(ledger.holds, row.owner);
      PairKeepsNoOverdraft(ledger.journal, transaction, UserHeld(row.owner), UserAvailable(row.owner), row.amount);
      var settled := row.(status := HoldRefunded, settledBy := Some(|ledger.journal|));
      forall other
        ensures Balance(ledger.journal + [transaction], UserHeld(other))
                  == HeldTotal(ledger.holds[holdId := settled], other)
      {
        BalanceAppend(ledger.journal, transaction, UserHeld(other));
        NetOfPair(entries[0], entries[1], UserHeld(other));
        HeldTotalUpdate(ledger.holds, holdId, settled, other);
      }
    }
  }

  lemma ReleaseKeepsSound(ledger: Ledger, holdId: HoldId, lines: seq<Distribution>, kind: Kind)
    requires Sound(ledger)
    requires kind == OriginateLoanKind || kind == SettleLiquidationKind
    requires Release(ledger, holdId, lines, kind).Ok?
    ensures Sound(Release(ledger, holdId, lines, kind).value.ledger)
  {
    var row := ledger.holds[holdId];
    if row.status == HoldHeld {
      var entries := ReleaseEntries(row.owner, row.amount, lines);
      ReleaseBuildable(row.owner, row.amount, lines);
      CreditsShape(lines);
      var transaction := Transaction(kind, holdId, entries);
      JournalAppend(ledger.journal, transaction);
      SettleKeepsMatch(ledger.journal, ledger.holds, transaction, HoldReleased);
      HeldAmountWithin(ledger.holds, holdId);
      ReleaseKeepsNoOverdraft(ledger.journal, transaction, row.owner, row.amount, lines);
      var settled := row.(status := HoldReleased, settledBy := Some(|ledger.journal|));
      forall other
        ensures Balance(ledger.journal + [transaction], UserHeld(other))
                  == HeldTotal(ledger.holds[holdId := settled], other)
      {
        BalanceAppend(ledger.journal, transaction, UserHeld(other));
        ReleaseNet(row.owner, row.amount, lines, UserHeld(other));
        HeldTotalUpdate(ledger.holds, holdId, settled, other);
      }
    }
  }

  lemma ReleaseKeepsNoOverdraft(journal: seq<Transaction>, transaction: Transaction, owner: UserId, amount: int,
                                lines: seq<Distribution>)
    requires NoOverdraft(journal) && AllPositive(lines)
    requires transaction.entries == ReleaseEntries(owner, amount, lines)
    requires Balance(journal, UserHeld(owner)) >= amount
    ensures NoOverdraft(journal + [transaction])
  {
    forall account | account != FloatAccount
      ensures Balance(journal + [transaction], account) >= 0
    {
      BalanceAppend(journal, transaction, account);
      ReleaseNet(owner, amount, lines, account);
    }
  }

  lemma TransferKeepsSound(ledger: Ledger, from: Party, to: Party, amount: int, reference: nat)
    requires Sound(ledger)
    requires Transfer(ledger, from, to, amount, reference).Ok?
    ensures Sound(Transfer(ledger, from, to, amount, reference).value.ledger)
  {
    var entries := [Debit(Resolve(from), amount), Credit(Resolve(to), amount)];
    PairBuildable(Resolve(from), Resolve(to), amount);
    var transaction := Transaction(TransferKind(from, to), reference, entries);
    JournalAppend(ledger.journal, transaction);
    PlainAppendKeepsMatch(ledger.journal, ledger.holds, transaction);
    PairKeepsNoOverdraft(ledger.journal, transaction, Resolve(from), Resolve(to), amount);
    forall user
      ensures Balance(ledger.journal + [transaction], UserHeld(user)) == HeldTotal(ledger.holds, user)
    {
      BalanceAppend(ledger.journal, transaction, UserHeld(user));
      NetOfPair(entries[0], entries[1], UserHeld(user));
    }
  }

  // ----- conservation -----

  ghost function BalanceSum(journal: seq<Transaction>, accounts: set<Account>): int {
    if accounts == {} then 0
    else
      var account :| account in accounts;
      Balance(journal, account) + BalanceSum(journal, accounts - {account})
  }

  lemma {:induction false} BalanceSumRemove(journal: seq<Transaction>, accounts: set<Account>, account: Account)
    requires account in accounts
    ensures BalanceSum(journal, accounts) == Balance(journal, account) + BalanceSum(journal, accounts - {account})
    decreases |accounts|
  {
    var first :| first in accounts
                 && BalanceSum(journal, accounts) == Balance(journal, first) + BalanceSum(journal, accounts - {first});
    if first != account {
      BalanceSumRemove(journal, accounts - {first}, account);
      BalanceSumRemove(journal, accounts - {account}, first);
      assert accounts - {first} - {account} == accounts - {account} - {first};
    }
  }

  ghost function NetSum(entries: seq<Entry>, accounts: set<Account>): int {
    if accounts == {} then 0
    else
      var account :| account in accounts;
      Net(entries, account) + NetSum(entries, accounts - {account})
  }

  lemma {:induction false} NetSumRemove(entries: seq<Entry>, accounts: set<Account>, account: Account)
    requires account in accounts
    ensures NetSum(entries, accounts) == Net(entries, account) + NetSum(entries, accounts - {account})
    decreases |accounts|
  {
    var first :| first in accounts
                 && NetSum(entries, accounts) == Net(entries, first) + NetSum(entries, accounts - {first});
    if first != account {
      NetSumRemove(entries, accounts - {first}, account);
      NetSumRemove(entries, accounts - {account}, first);
      assert accounts - {first} - {account} == accounts - {account} - {first};
    }
  }

  lemma {:induction false} NetSumAppend(entries: seq<Entry>, entry: Entry, accounts: set<Account>)
    ensures NetSum(entries + [entry], accounts)
              == NetSum(entries, accounts) + (if entry.account in accounts then Signed(entry) else 0)
    decreases |accounts|
  {
    if accounts != {} {
      var account :| account in accounts;
      NetSumRemove(entries, accounts, account);
      NetSumRemove(entries + [entry], accounts, account);
      NetAppend(entries, entry, account);
      NetSumAppend(entries, entry, accounts - {account});
    }
  }

  lemma {:induction false} NetSumOfNothing(accounts: set<Account>)
    ensures NetSum([], accounts) == 0
    decreases |accounts|
  {
    if accounts != {} {
      var account :| account in accounts;
      NetSumRemove([], accounts, account);
      NetSumOfNothing(accounts - {account});
    }
  }

  lemma {:induction false} NetSumIsSignedTotal(entries: seq<Entry>, accounts: set<Account>)
    requires forall i :: 0 <= i < |entries| ==> entries[i].account in accounts
    ensures NetSum(entries, accounts) == SignedTotal(entries)
  {
    if entries == [] {
      NetSumOfNothing(accounts);
    } else {
      var init, last := entries[..|entries| - 1], entries[|entries| - 1];
      NetSumIsSignedTotal(init, accounts);
      NetSumAppend(init, last, accounts);
      assert entries == init + [last];
    }
  }

  lemma {:induction false} BalanceSumAppend(journal: seq<Transaction>, transaction: Transaction, accounts: set<Account>)
    ensures BalanceSum(journal + [transaction], accounts)
              == BalanceSum(journal, accounts) + NetSum(transaction.entries, accounts)
    decreases |accounts|
  {
    if accounts != {} {
      var account :| account in accounts;
      BalanceSumRemove(journal, accounts, account);
      BalanceSumRemove(journal + [transaction], accounts, account);
      NetSumRemove(transaction.entries, accounts, account);
      BalanceAppend(journal, transaction, account);
      BalanceSumAppend(journal, transaction, accounts - {account});
    }
  }

  lemma {:induction false} BalanceSumOfNothing(accounts: set<Account>)
    ensures BalanceSum([], accounts) == 0
    decreases |accounts|
  {
    if accounts != {} {
      var account :| account in accounts;
      BalanceSumRemove([], accounts, account);
      BalanceSumOfNothing(accounts - {account});
    }
  }

  ghost predicate Covers(journal: seq<Transaction>, accounts: set<Account>) {
    forall t, i :: 0 <= t < |journal| && 0 <= i < |journal[t].entries| ==> journal[t].entries[i].account in accounts
  }

  /** Over any set of accounts that covers the journal the balances sum to nothing. */
  lemma {:induction false} BalancesSumToZero(journal: seq<Transaction>, accounts: set<Account>)
    requires JournalSound(journal) && Covers(journal, accounts)
    ensures BalanceSum(journal, accounts) == 0
  {
    if journal == [] {
      BalanceSumOfNothing(accounts);
    } else {
      var init, last := journal[..|journal| - 1], journal[|journal| - 1];
      forall t, i | 0 <= t < |init| && 0 <= i < |init[t].entries| ensures init[t].entries[i].account in accounts {
        assert init[t] == journal[t];
      }
      BalancesSumToZero(init, accounts);
      BalanceSumAppend(init, last, accounts);
      assert journal == init + [last];
      assert TransactionSound(journal[|journal| - 1]);
      NetSumIsSignedTotal(last.entries, accounts);
      SignedTotalBySides(last.entries);
      assert SideTotal(last.entries, DebitSide, AUD) == SideTotal(last.entries, CreditSide, AUD);
    }
  }

  /** The float owes exactly what every other account together holds. */
  lemma FloatMirrorsTheRest(ledger: Ledger, accounts: set<Account>)
    requires Sound(ledger) && Covers(ledger.journal, accounts) && FloatAccount in accounts
    ensures Balance(ledger.journal, FloatAccount) == -BalanceSum(ledger.journal, accounts - {FloatAccount})
  {
    BalancesSumToZero(ledger.journal, accounts);
    BalanceSumRemove(ledger.journal, accounts, FloatAccount);
  }

  /** No hold is settled by two transactions. */
  lemma SettledAtMostOnce(ledger: Ledger, t: TransactionId, t': TransactionId)
    requires Sound(ledger)
    requires t < |ledger.journal| && t' < |ledger.journal|
    requires IsSettlement(ledger.journal[t]) && IsSettlement(ledger.journal[t'])
    requires ledger.journal[t].reference == ledger.journal[t'].reference
    ensures t == t'
  {
    assert ledger.holds[ledger.journal[t].reference].settledBy == Some(t);
    assert ledger.holds[ledger.journal[t'].reference].settledBy == Some(t');
  }

  /** Refunding a held hold always succeeds, credits its owner exactly the amount held and moves no other
      spendable balance; refunding it again names the same transaction and changes nothing. */
  lemma RefundReturnsTheMoney(ledger: Ledger, holdId: HoldId)
    requires Sound(ledger) && holdId in ledger.holds && ledger.holds[holdId].status == HoldHeld
    ensures Refund(ledger, holdId).Ok?
    ensures var row := ledger.holds[holdId];
            var after := Refund(ledger, holdId).value.ledger;
            && after.holds.Keys == ledger.holds.Keys
            && Balance(after.journal, UserAvailable(row.owner))
                 == Balance(ledger.journal, UserAvailable(row.owner)) + row.amount
            && Balance(after.journal, UserHeld(row.owner)) == Balance(ledger.journal, UserHeld(row.owner)) - row.amount
            && (forall account :: account != UserAvailable(row.owner) && account != UserHeld(row.owner) ==>
                  Balance(after.journal, account) == Balance(ledger.journal, account))
            && Refund(after, holdId) == Refund(ledger, holdId)
  {
    var row := ledger.holds[holdId];
    var entries := [Debit(UserHeld(row.owner), row.amount), Credit(UserAvailable(row.owner), row.amount)];
    PairBuildable(UserHeld(row.owner), UserAvailable(row.owner), row.amount);
    var transaction := Transaction(RefundHoldKind, holdId, entries);
    forall account
      ensures Balance(ledger.journal + [transaction], account)
           == Balance(ledger.journal, account) + (if account == UserAvailable(row.owner) then row.amount
                                                  else if account == UserHeld(row.owner) then -row.amount else 0)
    {
      BalanceAppend(ledger.journal, transaction, account);
      NetOfPair(entries[0], entries[1], account);
    }
  }
}
