/** The settlement adapter inside one database transaction: it writes the journal and the holds statement by
    statement, and each operation is proved to be the ledger operation of the same name. An error is thrown,
    and whatever was written before it is rolled back by the unit of work around the call. */
module LedgerSettlementAdapter {
  import opened Shared
  import opened Distributions
  import opened LedgerTransaction
  import L = Ledger

  /** How a settlement operation may end: as its specification says, or with the error it names. */
  ghost predicate Performs(spec: Result<L.Posted>, after: L.Ledger, result: Result<L.TransactionId>) {
    match spec
    case Ok(posted) => result == Ok(posted.reference) && after == posted.ledger
    case Err(error) => result == Err(error)
  }

  class Adapter {
    var journal: seq<L.Transaction>
    var holds: map<L.HoldId, L.FundsHold>

    ghost function View(): L.Ledger
      reads this
    {
      L.Ledger(journal, holds)
    }

    constructor ()
      ensures View() == L.Empty
    {
      journal, holds := [], map[];
    }

    /** Sums every entry on the account: credits less debits. */
    method BalanceOf(account: Account) returns (balance: int)
      ensures balance == L.Balance(journal, account)
    {
      balance := 0;
      for t := 0 to |journal|
        invariant balance == L.Balance(journal[..t], account)
      {
        var entries := journal[t].entries;
        var net := 0;
        for i := 0 to |entries|
          invariant net == Net(entries[..i], account)
        {
          assert entries[..i + 1] == entries[..i] + [entries[i]];
          NetAppend(entries[..i], entries[i], account);
          if entries[i].account == account {
            net := net + Signed(entries[i]);
          }
        }
        assert entries[..|entries|] == entries;
        assert journal[..t + 1] == journal[..t] + [journal[t]];
        L.BalanceAppend(journal[..t], journal[t], account);
        balance := balance + net;
      }
      assert journal[..|journal|] == journal;
    }

    /** Builds the transaction, which may refuse it, and appends it to the journal. */
    method Write(kind: L.Kind, reference: nat, entries: seq<Entry>) returns (result: Result<L.TransactionId>)
      modifies this`journal
      ensures Performs(L.Write(old(View()), kind, reference, entries), View(), result)
    {
      var built := Build(entries);
      if built.Err? {
        return Err(built.error);
      }
      journal := journal + [L.Transaction(kind, reference, built.value)];
      return Ok(|journal| - 1);
    }

    method Hold(user: UserId, amount: int, reference: nat, newHold: L.HoldId) returns (result: Result<L.TransactionId>)
      modifies this
      ensures Performs(L.Hold(old(View()), user, amount, reference, newHold), View(), result)
    {
      var balance := BalanceOf(UserAvailable(user));
      if balance < amount {
        return Err(InsufficientFunds);
      }
      result := Write(L.HoldFundsKind, reference, [Debit(UserAvailable(user), amount), Credit(UserHeld(user), amount)]);
      if result.Err? {
        return;
      }
      if newHold in holds {
        return Err(DuplicateId);
      }
      holds := holds[newHold := L.FundsHold(user, amount, L.HoldHeld, None)];
    }

    /** Marks a hold settled by a transaction. */
    method SettleHold(hold: L.HoldId, status: L.HoldStatus, reference: L.TransactionId)
      requires hold in holds
      modifies this`holds
      ensures holds == L.Settled(old(holds), hold, status, reference)
    {
      holds := holds[hold := holds[hold].(status := status, settledBy := Some(reference))];
    }

    /** The amounts are added up, then one entry is pushed per line after the debit of the held account. */
    method ReleaseHold(hold: L.HoldId, distribution: seq<Distribution>, kind: L.Kind)
      returns (result: Result<L.TransactionId>)
      modifies this
      ensures Performs(L.Release(old(View()), hold, distribution, kind), View(), result)
    {
      if hold !in holds {
        return Err(FundsHoldMissing);
      }
      var row := holds[hold];
      if row.status != L.HoldHeld {
        if row.status == L.HoldReleased && row.settledBy.Some? {
          return Ok(row.settledBy.value);
        }
        return Err(FundsHoldNotHeld);
      }
      var distributed := 0;
      for i := 0 to |distribution|
        invariant distributed == Total(distribution[..i])
        invariant View() == old(View())
      {
        assert distribution[..i + 1] == distribution[..i] + [distribution[i]];
        TotalAppend(distribution[..i], distribution[i]);
        distributed := distributed + distribution[i].amount;
      }
      assert distribution[..|distribution|] == distribution;
      if distributed != row.amount {
        return Err(DistributionMismatch);
      }
      var entries := [Debit(UserHeld(row.owner), row.amount)];
      for i := 0 to |distribution|
        invariant entries == ReleaseEntries(row.owner, row.amount, distribution[..i])
        invariant View() == old(View())
      {
        assert distribution[..i + 1][..i] == distribution[..i];
        entries := entries + [Credit(Resolve(distribution[i].party), distribution[i].amount)];
      }
      result := Write(kind, hold, entries);
      if result.Err? {
        return;
      }
      SettleHold(hold, L.HoldReleased, result.value);
    }

    method RefundHold(hold: L.HoldId) returns (result: Result<L.TransactionId>)
      modifies this
      ensures Performs(L.Refund(old(View()), hold), View(), result)
    {
      if hold !in holds {
        return Err(FundsHoldMissing);
      }
      var row := holds[hold];
      if row.status != L.HoldHeld {
        if row.status == L.HoldRefunded && row.settledBy.Some? {
          return Ok(row.settledBy.value);
        }
        return Err(FundsHoldNotHeld);
      }
      result := Write(L.RefundHoldKind, hold,
                      [Debit(UserHeld(row.owner), row.amount), Credit(UserAvailable(row.owner), row.amount)]);
      if result.Err? {
        return;
      }
      SettleHold(hold, L.HoldRefunded, result.value);
    }

    /** The float is the only source that may go negative, so the only one whose balance is not read. */
    method Transfer(from: Party, to: Party, amount: int, reference: nat) returns (result: Result<L.TransactionId>)
      modifies this
      ensures Performs(L.Transfer(old(View()), from, to, amount, reference), View(), result)
      ensures holds == old(holds)
    {
      if from != PlatformFloat {
        var balance := BalanceOf(Resolve(from));
        if balance < amount {
          return Err(InsufficientFunds);
        }
      }
      result := Write(L.TransferKind(from, to), reference, [Debit(Resolve(from), amount), Credit(Resolve(to), amount)]);
    }
  }
}
