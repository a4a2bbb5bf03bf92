/** The custody receipt: its transition table and the agreement between being encumbered and naming a loan. */
module CustodyReceipts {
  import opened Shared

  type LoanId = nat
  type VaultId = nat
  type Category = string

  datatype ReceiptStatus = InVault | Encumbered | ReceiptReleased | ReceiptLiquidated

  datatype ReceiptEvent =
    | Encumber(loan: LoanId)
    | ReleaseEncumbrance
    | ClaimDefault(claimant: UserId)
    | TransferHolder(toHolder: UserId)
    | BurnForRedemption
    | BurnForLiquidation

  datatype Receipt = Receipt(
    vault: VaultId,
    holder: UserId,
    intakeHash: string,
    appraisedValue: int,
    category: Category,
    status: ReceiptStatus,
    encumberedBy: Option<LoanId>)

  /** The exhaustive transition table. */
  predicate Allows(status: ReceiptStatus, event: ReceiptEvent) {
    match status
    case InVault => event.Encumber? || event.TransferHolder? || event.BurnForRedemption? || event.BurnForLiquidation?
    case Encumbered => event.ReleaseEncumbrance? || event.ClaimDefault? || event.BurnForLiquidation?
    case ReceiptReleased => false
    case ReceiptLiquidated => false
  }

  /** The constructor's check. */
  predicate Consistent(receipt: Receipt) {
    receipt.status == Encumbered <==> receipt.encumberedBy.Some?
  }

  predicate Live(receipt: Receipt) {
    receipt.status == InVault || receipt.status == Encumbered
  }

  function Issue(vault: VaultId, holder: UserId, intakeHash: string, appraisedValue: int, category: Category): Receipt {
    Receipt(vault, holder, intakeHash, appraisedValue, category, InVault, None)
  }

  function MovementRejection(receipt: Receipt): Error {
    if receipt.status == Encumbered then ReceiptIsEncumbered else ReceiptAlreadyBurned
  }

  function Rejection(receipt: Receipt, event: ReceiptEvent): Error {
    match event
    case Encumber(_) => ReceiptNotInVault
    case ReleaseEncumbrance => ReceiptNotEncumbered
    case ClaimDefault(_) => ReceiptNotEncumbered
    case TransferHolder(_) => MovementRejection(receipt)
    case BurnForRedemption => MovementRejection(receipt)
    case BurnForLiquidation => ReceiptAlreadyBurned
  }

  function Apply(receipt: Receipt, event: ReceiptEvent): Result<Receipt> {
    if !Allows(receipt.status, event) then Err(Rejection(receipt, event))
    else
      match event
      case Encumber(loan) => Ok(receipt.(status := Encumbered, encumberedBy := Some(loan)))
      case ReleaseEncumbrance => Ok(receipt.(status := InVault, encumberedBy := None))
      case ClaimDefault(claimant) => Ok(receipt.(status := InVault, encumberedBy := None, holder := claimant))
      case TransferHolder(toHolder) => Ok(receipt.(holder := toHolder))
      case BurnForRedemption => Ok(receipt.(status := ReceiptReleased))
      case BurnForLiquidation => Ok(receipt.(status := ReceiptLiquidated, encumberedBy := None))
  }

  function ApplyAll(receipt: Receipt, events: seq<ReceiptEvent>): Result<Receipt> {
    if events == [] then Ok(receipt)
    else
      match ApplyAll(receipt, events[..|events| - 1])
      case Err(error) => Err(error)
      case Ok(before) => Apply(before, events[|events| - 1])
  }

  /** A receipt moves exactly out of the status its event leaves, and a refusal says what was in the way. */
  lemma TransitionRefusedExactlyWhen(receipt: Receipt, event: ReceiptEvent)
    ensures event.Encumber? ==>
              if receipt.status == InVault then Apply(receipt, event).Ok?
              else Apply(receipt, event) == Err(ReceiptNotInVault)
    ensures event.ReleaseEncumbrance? || event.ClaimDefault? ==>
              if receipt.status == Encumbered then Apply(receipt, event).Ok?
              else Apply(receipt, event) == Err(ReceiptNotEncumbered)
    ensures event.TransferHolder? || event.BurnForRedemption? ==>
              if receipt.status == InVault then Apply(receipt, event).Ok?
              else if receipt.status == Encumbered then Apply(receipt, event) == Err(ReceiptIsEncumbered)
              else Apply(receipt, event) == Err(ReceiptAlreadyBurned)
    ensures event.BurnForLiquidation? ==>
              if receipt.status == InVault || receipt.status == Encumbered then Apply(receipt, event).Ok?
              else Apply(receipt, event) == Err(ReceiptAlreadyBurned)
  {}

  /** Whom the events leave as holder: the last claimant or transferee. */
  function HolderAfter(holder: UserId, events: seq<ReceiptEvent>): UserId {
    if events == [] then holder
    else
      match events[|events| - 1]
      case ClaimDefault(claimant) => claimant
      case TransferHolder(toHolder) => toHolder
      case _ => HolderAfter(holder, events[..|events| - 1])
  }

  /** Where the events leave the receipt: the last one that is not a transfer decides. */
  function StatusAfter(status: ReceiptStatus, events: seq<ReceiptEvent>): ReceiptStatus {
    if events == [] then status
    else
      match events[|events| - 1]
      case Encumber(_) => Encumbered
      case ReleaseEncumbrance => InVault
      case ClaimDefault(_) => InVault
      case TransferHolder(_) => StatusAfter(status, events[..|events| - 1])
      case BurnForRedemption => ReceiptReleased
      case BurnForLiquidation => ReceiptLiquidated
  }

  /** Over every history the holder is the last claimant or transferee, the last other event decides the status, and
      an encumbered receipt names the loan of the last encumbrance. */
  lemma {:induction false} EveryHistoryIsItsLastEvents(receipt: Receipt, events: seq<ReceiptEvent>)
    requires ApplyAll(receipt, events).Ok?
    ensures var after := ApplyAll(receipt, events).value;
            && after.holder == HolderAfter(receipt.holder, events)
            && after.status == StatusAfter(receipt.status, events)
            && (events != [] && events[|events| - 1].Encumber? ==>
                  after.encumberedBy == Some(events[|events| - 1].loan))
  {
    if events != [] {
      EveryHistoryIsItsLastEvents(receipt, events[..|events| - 1]);
    }
  }

  /** Over every history the constructor's check never fires, what the receipt is for never changes, and
      nothing follows a burn. */
  lemma {:induction false} EveryHistoryIsConsistent(receipt: Receipt, events: seq<ReceiptEvent>)
    requires Consistent(receipt)
    requires ApplyAll(receipt, events).Ok?
    ensures var after := ApplyAll(receipt, events).value;
            && Consistent(after)
            && after.vault == receipt.vault && after.intakeHash == receipt.intakeHash
            && after.appraisedValue == receipt.appraisedValue && after.category == receipt.category
    ensures forall i :: 0 <= i < |events| - 1 ==> !events[i].BurnForRedemption? && !events[i].BurnForLiquidation?
    ensures events != [] && (events[|events| - 1].BurnForRedemption? || events[|events| - 1].BurnForLiquidation?)
            ==> !Live(ApplyAll(receipt, events).value)
  {
    if events != [] {
      EveryHistoryIsConsistent(receipt, events[..|events| - 1]);
    }
  }
}
