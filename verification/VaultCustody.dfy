/** Receipts entering and leaving the vaults: issue against a sealed intake within the insured limit, burn at
    the redemption request, verify, hand over. The lending steps move receipts in between. */
module VaultCustody {
  import opened Shared
  import opened CustodyReceipts

  type ReceiptId = nat
  type IntakeId = nat
  type RequestId = nat
  type StaffId = nat

  /** A sealed intake has its hash, and appraisals can no longer be added to it. */
  datatype Intake = Intake(
    vault: VaultId,
    borrower: UserId,
    category: Category,
    sealedHash: Option<string>,
    appraisals: seq<nat>)

  datatype RedemptionStatus = Requested | Verified | Handed

  datatype Request = Request(
    receipt: ReceiptId,
    vault: VaultId,
    requestedBy: UserId,
    status: RedemptionStatus,
    verifiedBy: Option<StaffId>,
    releasedBy: Option<StaffId>,
    sealNumberBroken: Option<string>)

  /** What happened at the counter. */
  datatype Act = VerifiedAct(request: RequestId) | HandedAct(request: RequestId)

  datatype State = State(
    limits: map<VaultId, nat>,
    intakes: map<IntakeId, Intake>,
    receipts: map<ReceiptId, Receipt>,
    requests: map<RequestId, Request>,
    acts: seq<Act>)

  datatype Command =
    | OpenVault(vault: VaultId, limit: nat)
    | BeginIntake(intake: IntakeId, vault: VaultId, borrower: UserId, category: Category)
    | Appraise(intake: IntakeId, value: nat)
    | SealIntake(intake: IntakeId, hash: string)
    | IssueReceipt(intake: IntakeId, newReceipt: ReceiptId)
    | LendingEvent(receipt: ReceiptId, event: ReceiptEvent)
    | RequestRedemption(receipt: ReceiptId, requestedBy: UserId, newRequest: RequestId)
    | VerifyRedemption(request: RequestId, verifiedBy: StaffId)
    | ConfirmRelease(request: RequestId, releasedBy: StaffId, sealNumberBroken: string)

  /** The state a step commits, and the id it returns. */
  datatype Outcome = Outcome(state: State, result: Result<nat>)

  const Start := State(map[], map[], map[], map[], [])

  function Refuse(s: State, error: Error): Outcome {
    Outcome(s, Err(error))
  }

  // ----- the redemption request -----

  /** REQUESTED is verified, VERIFIED is handed over, and that is all. */
  function Verify(request: Request, staff: StaffId): Result<Request> {
    match request.status
    case Requested => Ok(request.(status := Verified, verifiedBy := Some(staff)))
    case Verified => Err(RedemptionAlreadyVerified)
    case Handed => Err(RedemptionAlreadyReleased)
  }

  function HandOver(request: Request, staff: StaffId, sealNumberBroken: string): Result<Request> {
    match request.status
    case Requested => Err(RedemptionNotVerified)
    case Verified =>
      Ok(request.(status := Handed, releasedBy := Some(staff), sealNumberBroken := Some(sealNumberBroken)))
    case Handed => Err(RedemptionAlreadyReleased)
  }

  // ----- exposure -----

  /** What one receipt adds to a vault's exposure: its appraised value while it is live there. */
  function Exposes(receipt: Receipt, vault: VaultId): nat {
    if receipt.vault == vault && Live(receipt) && receipt.appraisedValue >= 0 then receipt.appraisedValue else 0
  }

  ghost function Exposure(receipts: map<ReceiptId, Receipt>, vault: VaultId): nat {
    if receipts == map[] then 0
    else var id :| id in receipts; Exposes(receipts[id], vault) + Exposure(receipts - {id}, vault)
  }

  lemma {:induction false} ExposureRemove(receipts: map<ReceiptId, Receipt>, id: ReceiptId, vault: VaultId)
    requires id in receipts
    ensures Exposure(receipts, vault) == Exposes(receipts[id], vault) + Exposure(receipts - {id}, vault)
    decreases |receipts|
  {
    var first :| first in receipts
                 && Exposure(receipts, vault) == Exposes(receipts[first], vault) + Exposure(receipts - {first}, vault);
    if first != id {
      ExposureRemove(receipts - {first}, id, vault);
      ExposureRemove(receipts - {id}, first, vault);
      assert receipts - {first} - {id} == receipts - {id} - {first};
    }
  }

  lemma ExposureUpdate(receipts: map<ReceiptId, Receipt>, id: ReceiptId, receipt: Receipt, vault: VaultId)
    ensures Exposure(receipts[id := receipt], vault)
         == Exposure(receipts, vault) + Exposes(receipt, vault)
         - (if id in receipts then Exposes(receipts[id], vault) else 0)
  {
    var updated := receipts[id := receipt];
    ExposureRemove(updated, id, vault);
    assert updated - {id} == receipts - {id};
    if id in receipts {
      ExposureRemove(receipts, id, vault);
    } else {
      assert receipts - {id} == receipts;
    }
  }

  /** A vault's exposure is the appraised value of the receipts in it that are in the vault or encumbered, and of no
      others: nothing for no receipts, and with one receipt more just that receipt's part. */
  lemma ExposureCountsLive(receipts: map<ReceiptId, Receipt>, id: ReceiptId, receipt: Receipt, vault: VaultId)
    requires id !in receipts && receipt.appraisedValue >= 0
    ensures Exposure(map[], vault) == 0
    ensures Exposure(receipts[id := receipt], vault)
         == Exposure(receipts, vault)
          + (if receipt.vault == vault && (receipt.status == InVault || receipt.status == Encumbered)
             then receipt.appraisedValue else 0)
  {
    ExposureUpdate(receipts, id, receipt, vault);
  }

  /** A burn takes the receipt's appraised value off its vault's exposure; nothing else that can happen to a receipt
      changes any vault's. */
  lemma EventChangesExposure(receipts: map<ReceiptId, Receipt>, id: ReceiptId, event: ReceiptEvent, vault: VaultId)
    requires id in receipts && Apply(receipts[id], event).Ok? && receipts[id].appraisedValue >= 0
    ensures Exposure(receipts[id := Apply(receipts[id], event).value], vault)
         == Exposure(receipts, vault)
          - (if receipts[id].vault == vault && (event.BurnForRedemption? || event.BurnForLiquidation?)
             then receipts[id].appraisedValue else 0)
  {
    ExposureUpdate(receipts, id, Apply(receipts[id], event).value, vault);
  }

  // ----- the steps -----

  ghost predicate HasHash(receipts: map<ReceiptId, Receipt>, hash: string) {
    exists id :: id in receipts && receipts[id].intakeHash == hash
  }

  ghost function WithHash(receipts: map<ReceiptId, Receipt>, hash: string): ReceiptId
    requires HasHash(receipts, hash)
  {
    var id :| id in receipts && receipts[id].intakeHash == hash; id
  }

  /** Replays an issued receipt; otherwise issues one at the latest appraisal if the insured limit allows it. */
  ghost function IssueStep(s: State, intakeId: IntakeId, newReceipt: ReceiptId): Outcome {
    if intakeId !in s.intakes then Refuse(s, NotFound)
    else
      var intake := s.intakes[intakeId];
      if intake.sealedHash.None? then Refuse(s, IntakeNotSealed)
      else if intake.vault !in s.limits then Refuse(s, NotFound)
      else if intake.appraisals == [] then Refuse(s, IntakeIncomplete)
      else if HasHash(s.receipts, intake.sealedHash.value)
           then Outcome(s, Ok(WithHash(s.receipts, intake.sealedHash.value)))
      else
        var value := intake.appraisals[|intake.appraisals| - 1];
        if Exposure(s.receipts, intake.vault) + value > s.limits[intake.vault] then Refuse(s, VaultInsuredLimitExceeded)
        else if newReceipt in s.receipts then Refuse(s, DuplicateId)
        else
          var receipt := Issue(intake.vault, intake.borrower, intake.sealedHash.value, value, intake.category);
          Outcome(s.(receipts := s.receipts[newReceipt := receipt]), Ok(newReceipt))
  }

  /** Burns the receipt and records the request together. */
  function RequestStep(s: State, receiptId: ReceiptId, requestedBy: UserId, newRequest: RequestId): Outcome {
    if receiptId !in s.receipts then Refuse(s, NotFound)
    else if s.receipts[receiptId].holder != requestedBy then Refuse(s, NotResourceOwner)
    else
      match Apply(s.receipts[receiptId], BurnForRedemption)
      case Err(error) => Refuse(s, error)
      case Ok(burned) =>
        if newRequest in s.requests then Refuse(s, DuplicateId)
        else
          var request := Request(receiptId, burned.vault, requestedBy, Requested, None, None, None);
          Outcome(s.(receipts := s.receipts[receiptId := burned], requests := s.requests[newRequest := request]),
                  Ok(newRequest))
  }

  function VerifyStep(s: State, requestId: RequestId, staff: StaffId): Outcome {
    if requestId !in s.requests then Refuse(s, NotFound)
    else
      match Verify(s.requests[requestId], staff)
      case Err(error) => Refuse(s, error)
      case Ok(verified) =>
        Outcome(s.(requests := s.requests[requestId := verified], acts := s.acts + [VerifiedAct(requestId)]),
                Ok(requestId))
  }

  function ReleaseStep(s: State, requestId: RequestId, staff: StaffId, sealNumberBroken: string): Outcome {
    if requestId !in s.requests then Refuse(s, NotFound)
    else
      match HandOver(s.requests[requestId], staff, sealNumberBroken)
      case Err(error) => Refuse(s, error)
      case Ok(handed) =>
        Outcome(s.(requests := s.requests[requestId := handed], acts := s.acts + [HandedAct(requestId)]), Ok(requestId))
  }

  /** What lending does to a receipt; redemption burns only through a request. */
  function LendingStep(s: State, receiptId: ReceiptId, event: ReceiptEvent): Outcome {
    if receiptId !in s.receipts || event.BurnForRedemption? then Refuse(s, NotFound)
    else
      match Apply(s.receipts[receiptId], event)
      case Err(error) => Refuse(s, error)
      case Ok(changed) => Outcome(s.(receipts := s.receipts[receiptId := changed]), Ok(receiptId))
  }

  function IntakeStep(s: State, c: Command): Outcome {
    match c
    case OpenVault(vault, limit) =>
      if vault in s.limits then Refuse(s, DuplicateId) else Outcome(s.(limits := s.limits[vault := limit]), Ok(vault))
    case BeginIntake(intake, vault, borrower, category) =>
      if intake in s.intakes then Refuse(s, DuplicateId)
      else if vault !in s.limits then Refuse(s, NotFound)
      else Outcome(s.(intakes := s.intakes[intake := Intake(vault, borrower, category, None, [])]), Ok(intake))
    case Appraise(intake, value) =>
      if intake !in s.intakes then Refuse(s, NotFound)
      else if s.intakes[intake].sealedHash.Some? then Refuse(s, IntakeAlreadySealed)
      else Outcome(s.(intakes :=
        s.intakes[intake := s.intakes[intake].(appraisals := s.intakes[intake].appraisals + [value])]), Ok(intake))
    case SealIntake(intake, hash) =>
      if intake !in s.intakes then Refuse(s, NotFound)
      else if s.intakes[intake].sealedHash.Some? then Refuse(s, IntakeAlreadySealed)
      else if s.intakes[intake].appraisals == [] then Refuse(s, IntakeIncomplete)
      else Outcome(s.(intakes := s.intakes[intake := s.intakes[intake].(sealedHash := Some(hash))]), Ok(intake))
    case _ => Refuse(s, NotFound)
  }

  ghost function Step(s: State, c: Command): Outcome {
    match c
    case IssueReceipt(intake, newReceipt) => IssueStep(s, intake, newReceipt)
    case LendingEvent(receipt, event) => LendingStep(s, receipt, event)
    case RequestRedemption(receipt, requestedBy, newRequest) => RequestStep(s, receipt, requestedBy, newRequest)
    case VerifyRedemption(request, staff) => VerifyStep(s, request, staff)
    case ConfirmRelease(request, staff, sealNumberBroken) => ReleaseStep(s, request, staff, sealNumberBroken)
    case _ => IntakeStep(s, c)
  }

  ghost function Run(s: State, commands: seq<Command>): State {
    if commands == [] then s else Step(Run(s, commands[..|commands| - 1]), commands[|commands| - 1]).state
  }

  // ----- the invariant -----

  ghost predicate WithinLimits(limits: map<VaultId, nat>, receipts: map<ReceiptId, Receipt>) {
    && (forall vault :: vault in limits ==> Exposure(receipts, vault) <= limits[vault])
    && (forall id :: id in receipts ==> receipts[id].vault in limits && receipts[id].appraisedValue >= 0)
  }

  ghost predicate HashesUnique(receipts: map<ReceiptId, Receipt>) {
    forall i, j :: i in receipts && j in receipts && receipts[i].intakeHash == receipts[j].intakeHash ==> i == j
  }

  ghost predicate IsRequested(requests: map<RequestId, Request>, receipt: ReceiptId) {
    exists r :: r in requests && requests[r].receipt == receipt
  }

  /** Released receipts and redemption requests correspond one to one. */
  ghost predicate RequestsMatch(receipts: map<ReceiptId, Receipt>, requests: map<RequestId, Request>) {
    && (forall r :: r in requests ==>
          requests[r].receipt in receipts && receipts[requests[r].receipt].status == ReceiptReleased)
    && (forall r, q :: r in requests && q in requests && requests[r].receipt == requests[q].receipt ==> r == q)
    && (forall id :: id in receipts && receipts[id].status == ReceiptReleased ==> IsRequested(requests, id))
  }

  ghost predicate IsAct(acts: seq<Act>, i: int, act: Act) {
    0 <= i < |acts| && acts[i] == act
  }

  ghost predicate Happened(acts: seq<Act>, act: Act, before: int) {
    exists i :: IsAct(acts, i, act) && i < before
  }

  /** The acts recorded for a request are the ones its status has behind it, each once, verification first. */
  ghost predicate ActsMatch(requests: map<RequestId, Request>, acts: seq<Act>) {
    && (forall i, act :: IsAct(acts, i, act) ==>
          act.request in requests && requests[act.request].status != Requested
          && (act.HandedAct? ==> requests[act.request].status == Handed && Happened(acts, VerifiedAct(act.request), i)))
    && (forall i, j, act :: IsAct(acts, i, act) && IsAct(acts, j, act) ==> i == j)
    && (forall r :: r in requests && requests[r].status != Requested ==> Happened(acts, VerifiedAct(r), |acts|))
  }

  ghost predicate Sound(s: State) {
    && WithinLimits(s.limits, s.receipts)
    && HashesUnique(s.receipts)
    && RequestsMatch(s.receipts, s.requests)
    && ActsMatch(s.requests, s.acts)
  }

  /** Changing one receipt as its entity allows never raises any vault's exposure. */
  lemma TransitionKeepsReceipts(limits: map<VaultId, nat>, receipts: map<ReceiptId, Receipt>, id: ReceiptId,
                                event: ReceiptEvent)
    requires WithinLimits(limits, receipts) && HashesUnique(receipts) && id in receipts
             && Apply(receipts[id], event).Ok?
    ensures var receipts' := receipts[id := Apply(receipts[id], event).value];
            WithinLimits(limits, receipts') && HashesUnique(receipts')
  {
    var changed := Apply(receipts[id], event).value;
    forall vault | vault in limits ensures Exposure(receipts[id := changed], vault) <= limits[vault] {
      ExposureUpdate(receipts, id, changed, vault);
    }
  }

  lemma IssueKeepsReceipts(limits: map<VaultId, nat>, receipts: map<ReceiptId, Receipt>, newReceipt: ReceiptId,
                           receipt: Receipt)
    requires WithinLimits(limits, receipts) && HashesUnique(receipts) && newReceipt !in receipts
    requires receipt.vault in limits && receipt.appraisedValue >= 0
    requires Exposure(receipts, receipt.vault) + receipt.appraisedValue <= limits[receipt.vault]
    requires !HasHash(receipts, receipt.intakeHash)
    ensures WithinLimits(limits, receipts[newReceipt := receipt]) && HashesUnique(receipts[newReceipt := receipt])
  {
    forall vault | vault in limits ensures Exposure(receipts[newReceipt := receipt], vault) <= limits[vault] {
      ExposureUpdate(receipts, newReceipt, receipt, vault);
    }
  }

  lemma IssueKeeps(s: State, intake: IntakeId, newReceipt: ReceiptId)
    requires Sound(s)
    ensures Sound(IssueStep(s, intake, newReceipt).state)
  {
    var s' := IssueStep(s, intake, newReceipt).state;
    if s' != s {
      IssueKeepsReceipts(s.limits, s.receipts, newReceipt, s'.receipts[newReceipt]);
      assert RequestsMatch(s'.receipts, s'.requests);
    }
  }

  lemma LendingKeeps(s: State, receipt: ReceiptId, event: ReceiptEvent)
    requires Sound(s)
    ensures Sound(LendingStep(s, receipt, event).state)
  {
    if LendingStep(s, receipt, event).result.Ok? {
      var s' := LendingStep(s, receipt, event).state;
      TransitionKeepsReceipts(s.limits, s.receipts, receipt, event);
      assert RequestsMatch(s'.receipts, s'.requests);
    }
  }

  lemma NewRequestMatches(receipts: map<ReceiptId, Receipt>, requests: map<RequestId, Request>, id: ReceiptId,
                          burned: Receipt,
                          newRequest: RequestId, request: Request)
    requires RequestsMatch(receipts, requests) && id in receipts && receipts[id].status != ReceiptReleased
    requires burned.status == ReceiptReleased && newRequest !in requests && request.receipt == id
    ensures RequestsMatch(receipts[id := burned], requests[newRequest := request])
  {
    var receipts', requests' := receipts[id := burned], requests[newRequest := request];
    forall other | other in receipts' && receipts'[other].status == ReceiptReleased
      ensures IsRequested(requests', other)
    {
      if other == id {
        assert requests'[newRequest].receipt == id;
      } else {
        var r :| r in requests && requests[r].receipt == other;
        assert requests'[r].receipt == other;
      }
    }
  }

  lemma RequestKeeps(s: State, receipt: ReceiptId, requestedBy: UserId, newRequest: RequestId)
    requires Sound(s)
    ensures Sound(RequestStep(s, receipt, requestedBy, newRequest).state)
  {
    var s' := RequestStep(s, receipt, requestedBy, newRequest).state;
    if s' != s {
      TransitionKeepsReceipts(s.limits, s.receipts, receipt, BurnForRedemption);
      NewRequestMatches(s.receipts, s.requests, receipt, s'.receipts[receipt], newRequest, s'.requests[newRequest]);
      NewRequestHasNoActs(s.requests, s.acts, newRequest, s'.requests[newRequest]);
    }
  }

  lemma NewRequestHasNoActs(requests: map<RequestId, Request>, acts: seq<Act>, newRequest: RequestId, request: Request)
    requires ActsMatch(requests, acts) && newRequest !in requests && request.status == Requested
    ensures ActsMatch(requests[newRequest := request], acts)
  {}

  lemma StillHappened(acts: seq<Act>, longer: seq<Act>, act: Act, before: int)
    requires acts <= longer && Happened(acts, act, before)
    ensures Happened(longer, act, before)
  {
    var i :| IsAct(acts, i, act) && i < before;
    assert IsAct(longer, i, act);
  }

  /** Recording an act together with the status it brings about. */
  lemma ActKeepsMatch(requests: map<RequestId, Request>, acts: seq<Act>, act: Act, request: Request)
    requires ActsMatch(requests, acts) && act.request in requests
    requires act.VerifiedAct? ==> requests[act.request].status == Requested && request.status == Verified
    requires act.HandedAct? ==> requests[act.request].status == Verified && request.status == Handed
    ensures ActsMatch(requests[act.request := request], acts + [act])
  {
    var requests', acts' := requests[act.request := request], acts + [act];
    forall i, a | IsAct(acts', i, a)
      ensures IsAct(acts, i, a) || (i == |acts| && a == act)
      ensures a.request in requests' && requests'[a.request].status != Requested
      ensures a.HandedAct? ==> requests'[a.request].status == Handed && Happened(acts', VerifiedAct(a.request), i)
    {
      if i < |acts| {
        assert IsAct(acts, i, a);
        if a.HandedAct? { StillHappened(acts, acts', VerifiedAct(a.request), i); }
      } else if a.HandedAct? {
        StillHappened(acts, acts', VerifiedAct(a.request), |acts|);
      }
    }
    forall r | r in requests' && requests'[r].status != Requested ensures Happened(acts', VerifiedAct(r), |acts'|) {
      if r == act.request && act.VerifiedAct? {
        assert IsAct(acts', |acts|, act);
      } else {
        StillHappened(acts, acts', VerifiedAct(r), |acts|);
      }
    }
  }

  lemma SameReceiptsMatch(receipts: map<ReceiptId, Receipt>, requests: map<RequestId, Request>, r: RequestId,
                          request: Request)
    requires RequestsMatch(receipts, requests) && r in requests && request.receipt == requests[r].receipt
    ensures RequestsMatch(receipts, requests[r := request])
  {
    forall id | id in receipts && receipts[id].status == ReceiptReleased
      ensures IsRequested(requests[r := request], id)
    {
      var q :| q in requests && requests[q].receipt == id;
      assert requests[r := request][q].receipt == id;
    }
  }

  lemma VerifyKeeps(s: State, request: RequestId, staff: StaffId)
    requires Sound(s)
    ensures Sound(VerifyStep(s, request, staff).state)
  {
    if VerifyStep(s, request, staff).result.Ok? {
      var verified := Verify(s.requests[request], staff).value;
      ActKeepsMatch(s.requests, s.acts, VerifiedAct(request), verified);
      SameReceiptsMatch(s.receipts, s.requests, request, verified);
    }
  }

  lemma ReleaseKeeps(s: State, request: RequestId, staff: StaffId, sealNumberBroken: string)
    requires Sound(s)
    ensures Sound(ReleaseStep(s, request, staff, sealNumberBroken).state)
  {
    if ReleaseStep(s, request, staff, sealNumberBroken).result.Ok? {
      var handed := HandOver(s.requests[request], staff, sealNumberBroken).value;
      ActKeepsMatch(s.requests, s.acts, HandedAct(request), handed);
      SameReceiptsMatch(s.receipts, s.requests, request, handed);
    }
  }

  lemma {:induction false} NobodyThere(receipts: map<ReceiptId, Receipt>, vault: VaultId)
    requires forall id :: id in receipts ==> receipts[id].vault != vault
    ensures Exposure(receipts, vault) == 0
    decreases |receipts|
  {
    if receipts != map[] {
      var first :| first in receipts;
      ExposureRemove(receipts, first, vault);
      NobodyThere(receipts - {first}, vault);
    }
  }

  lemma IntakeKeeps(s: State, c: Command)
    requires Sound(s)
    ensures Sound(IntakeStep(s, c).state)
  {
    if c.OpenVault? && c.vault !in s.limits {
      NobodyThere(s.receipts, c.vault);
    }
  }

  lemma StepKeeps(s: State, c: Command)
    requires Sound(s)
    ensures Sound(Step(s, c).state)
  {
    match c
    case IssueReceipt(intake, newReceipt) => IssueKeeps(s, intake, newReceipt);
    case LendingEvent(receipt, event) => LendingKeeps(s, receipt, event);
    case RequestRedemption(receipt, requestedBy, newRequest) => RequestKeeps(s, receipt, requestedBy, newRequest);
    case VerifyRedemption(request, staff) => VerifyKeeps(s, request, staff);
    case ConfirmRelease(request, staff, sealNumberBroken) => ReleaseKeeps(s, request, staff, sealNumberBroken);
    case OpenVault(_, _) => IntakeKeeps(s, c);
    case BeginIntake(_, _, _, _) => IntakeKeeps(s, c);
    case Appraise(_, _) => IntakeKeeps(s, c);
    case SealIntake(_, _) => IntakeKeeps(s, c);
  }

  lemma {:induction false} RunKeeps(s: State, commands: seq<Command>)
    requires Sound(s)
    ensures Sound(Run(s, commands))
  {
    if commands != [] {
      RunKeeps(s, commands[..|commands| - 1]);
      StepKeeps(Run(s, commands[..|commands| - 1]), commands[|commands| - 1]);
    }
  }

  lemma RunIsSound(commands: seq<Command>)
    ensures Sound(Run(Start, commands))
  {
    RunKeeps(Start, commands);
  }

  // ----- what the runs mean -----

  /** Over every run no vault holds more than it is insured for, and a sealed intake yields at most one receipt. */
  lemma VaultsStayInsured(commands: seq<Command>, vault: VaultId, i: ReceiptId, j: ReceiptId)
    ensures var s := Run(Start, commands);
            && (vault in s.limits ==> Exposure(s.receipts, vault) <= s.limits[vault])
            && (i in s.receipts && j in s.receipts && s.receipts[i].intakeHash == s.receipts[j].intakeHash ==> i == j)
  {
    RunIsSound(commands);
  }

  /** A sealed and appraised intake gets a receipt exactly when it has one already or its latest appraisal still fits
      the insured limit; a new receipt is in the vault for the borrower at that value, and raises the vault's
      exposure by exactly that much. */
  lemma IssueExactlyWhen(s: State, i: IntakeId, newReceipt: ReceiptId)
    requires HashesUnique(s.receipts) && i in s.intakes && s.intakes[i].vault in s.limits && newReceipt !in s.receipts
    ensures var intake := s.intakes[i];
            var answer := IssueStep(s, i, newReceipt);
            && (answer.result.Ok? <==>
                  && intake.sealedHash.Some? && intake.appraisals != []
                  && (HasHash(s.receipts, intake.sealedHash.value)
                      || Exposure(s.receipts, intake.vault)
                      + intake.appraisals[|intake.appraisals| - 1] <= s.limits[intake.vault]))
            && (answer.result == Ok(newReceipt) ==>
                  var receipt := Receipt(intake.vault, intake.borrower, intake.sealedHash.value,
                                         intake.appraisals[|intake.appraisals| - 1],
                                         intake.category, InVault, None);
                  && answer.state == s.(receipts := s.receipts[newReceipt := receipt])
                  && Exposure(answer.state.receipts, intake.vault)
                       == Exposure(s.receipts, intake.vault) + receipt.appraisedValue)
  {
    var answer := IssueStep(s, i, newReceipt);
    if answer.result == Ok(newReceipt) {
      ExposureUpdate(s.receipts, newReceipt, answer.state.receipts[newReceipt], s.intakes[i].vault);
    }
  }

  /** A vault is opened once, an intake begun once in a known vault; appraisals are added at the end and the intake
      sealed once, while it is a draft. */
  lemma IntakeStepsExactlyWhen(s: State, vault: VaultId, limit: nat, i: IntakeId, borrower: UserId,
                               category: Category, value: nat, hash: string)
    ensures var vaulted := Step(s, OpenVault(vault, limit));
            vaulted.result == (if vault in s.limits then Err(DuplicateId) else Ok(vault))
            && vaulted.state == if vault in s.limits then s else s.(limits := s.limits[vault := limit])
    ensures var begun := Step(s, BeginIntake(i, vault, borrower, category));
            begun.result == (if i in s.intakes then Err(DuplicateId)
                             else if vault !in s.limits then Err(NotFound) else Ok(i))
            && begun.state == if begun.result.Err? then s
                              else s.(intakes := s.intakes[i := Intake(vault, borrower, category, None, [])])
    ensures var appraised := Step(s, Appraise(i, value));
            appraised.result == (if i !in s.intakes then Err(NotFound)
                                 else if s.intakes[i].sealedHash.Some? then Err(IntakeAlreadySealed) else Ok(i))
            && appraised.state == if appraised.result.Err? then s
                                  else s.(intakes := s.intakes[i :=
                                    s.intakes[i].(appraisals := s.intakes[i].appraisals + [value])])
    ensures var done := Step(s, SealIntake(i, hash));
            done.result == (if i !in s.intakes then Err(NotFound)
                            else if s.intakes[i].sealedHash.Some? then Err(IntakeAlreadySealed)
                            else if s.intakes[i].appraisals == [] then Err(IntakeIncomplete) else Ok(i))
            && done.state == if done.result.Err? then s
                             else s.(intakes := s.intakes[i := s.intakes[i].(sealedHash := Some(hash))])
  {}

  /** A receipt is redeemed exactly by its holder while it is in the vault and not encumbered; then it is burned and
      the request recorded for it, and nothing else changes. */
  lemma RedemptionExactlyWhen(s: State, r: ReceiptId, requestedBy: UserId, newRequest: RequestId)
    requires r in s.receipts && newRequest !in s.requests
    ensures var answer := RequestStep(s, r, requestedBy, newRequest);
            && (answer.result.Ok? <==> requestedBy == s.receipts[r].holder && s.receipts[r].status == InVault)
            && answer.state == if answer.result.Err? then s
                               else s.(receipts := s.receipts[r := s.receipts[r].(status := ReceiptReleased)],
                                       requests := s.requests[newRequest :=
                                         Request(r, s.receipts[r].vault, requestedBy, Requested, None, None, None)])
  {}

  /** Lending moves a receipt exactly as its transition table allows, and never redeems it. */
  lemma LendingExactlyWhen(s: State, r: ReceiptId, event: ReceiptEvent)
    requires r in s.receipts
    ensures var answer := LendingStep(s, r, event);
            && (answer.result.Ok? <==> Apply(s.receipts[r], event).Ok? && !event.BurnForRedemption?)
            && answer.state == if answer.result.Err? then s
                               else s.(receipts := s.receipts[r := Apply(s.receipts[r], event).value])
  {}

  /** A request is verified exactly once, and handed over exactly once after that; each records who did it. */
  lemma CounterExactlyWhen(s: State, q: RequestId, staff: StaffId, sealNumberBroken: string)
    requires q in s.requests
    ensures var verified := VerifyStep(s, q, staff);
            && verified.result == (match s.requests[q].status
                                   case Requested => Ok(q)
                                   case Verified => Err(RedemptionAlreadyVerified)
                                   case Handed => Err(RedemptionAlreadyReleased))
            && verified.state == if verified.result.Err? then s
                                 else s.(requests := s.requests[q :=
                                           s.requests[q].(status := Verified, verifiedBy := Some(staff))],
                                         acts := s.acts + [VerifiedAct(q)])
    ensures var handed := ReleaseStep(s, q, staff, sealNumberBroken);
            && handed.result == (match s.requests[q].status
                                 case Requested => Err(RedemptionNotVerified)
                                 case Verified => Ok(q)
                                 case Handed => Err(RedemptionAlreadyReleased))
            && handed.state == if handed.result.Err? then s
                               else s.(requests := s.requests[q :=
                                         s.requests[q].(status := Handed, releasedBy := Some(staff),
                                                        sealNumberBroken := Some(sealNumberBroken))],
                                       acts := s.acts + [HandedAct(q)])
  {}

  /** A sealed and appraised intake of a known vault. */
  predicate Issuable(s: State, i: IntakeId) {
    && i in s.intakes && s.intakes[i].sealedHash.Some? && s.intakes[i].appraisals != []
    && s.intakes[i].vault in s.limits
  }

  /** What the redemption of `r` leaves to `i`: its vault's exposure falls by the redeemed value, if it was there, and
      the intake gets its receipt exactly when it has one or its latest appraisal fits what the limit now leaves. */
  ghost predicate FreesRoom(s: State, redeemed: State, r: ReceiptId, i: IntakeId, newReceipt: ReceiptId)
    requires r in s.receipts && Issuable(s, i)
  {
    var intake := s.intakes[i];
    var value := intake.appraisals[|intake.appraisals| - 1];
    var freed := if s.receipts[r].vault == intake.vault then s.receipts[r].appraisedValue else 0;
    && Exposure(redeemed.receipts, intake.vault) == Exposure(s.receipts, intake.vault) - freed
    && (IssueStep(redeemed, i, newReceipt).result.Ok? <==>
          HasHash(s.receipts, intake.sealedHash.value)
          || Exposure(s.receipts, intake.vault) - freed + value <= s.limits[intake.vault])
    && (s.receipts[r].vault == intake.vault && value <= s.receipts[r].appraisedValue ==>
          IssueStep(redeemed, i, newReceipt).result.Ok?)
  }

  /** At any point of any run a redemption frees its room; so an intake of no more than the redeemed value gets its
      receipt, however full the vault was. */
  lemma RedemptionFreesRoom(commands: seq<Command>, r: ReceiptId, newRequest: RequestId, i: IntakeId,
                            newReceipt: ReceiptId)
    requires var s := Run(Start, commands);
             && r in s.receipts && s.receipts[r].status == InVault && newRequest !in s.requests
             && newReceipt !in s.receipts && Issuable(s, i)
    ensures var s := Run(Start, commands);
            FreesRoom(s, RequestStep(s, r, s.receipts[r].holder, newRequest).state, r, i, newReceipt)
  {
    var s := Run(Start, commands);
    RunIsSound(commands);
    RedemptionExactlyWhen(s, r, s.receipts[r].holder, newRequest);
    RedeemedFreesRoom(s, RequestStep(s, r, s.receipts[r].holder, newRequest).state, r, i, newReceipt);
  }

  lemma RedeemedFreesRoom(s: State, redeemed: State, r: ReceiptId, i: IntakeId, newReceipt: ReceiptId)
    requires WithinLimits(s.limits, s.receipts) && HashesUnique(s.receipts)
    requires r in s.receipts && s.receipts[r].status == InVault && newReceipt !in s.receipts && Issuable(s, i)
    requires redeemed == s.(receipts := s.receipts[r := s.receipts[r].(status := ReceiptReleased)],
                            requests := redeemed.requests)
    ensures FreesRoom(s, redeemed, r, i, newReceipt)
  {
    RedeemedReceipts(s.receipts, redeemed.receipts, r, s.intakes[i].vault, s.intakes[i].sealedHash.value);
    IssueAnsweredExactlyWhen(redeemed, i, newReceipt);
    assert Exposure(s.receipts, s.intakes[i].vault) <= s.limits[s.intakes[i].vault];
  }

  lemma RedeemedReceipts(receipts: map<ReceiptId, Receipt>, receipts': map<ReceiptId, Receipt>, r: ReceiptId,
                         vault: VaultId, hash: string)
    requires r in receipts && receipts[r].status == InVault && receipts[r].appraisedValue >= 0
    requires receipts' == receipts[r := receipts[r].(status := ReceiptReleased)]
    ensures Exposure(receipts', vault)
         == Exposure(receipts, vault) - (if receipts[r].vault == vault then receipts[r].appraisedValue else 0)
    ensures HasHash(receipts, hash) <==> HasHash(receipts', hash)
  {
    EventChangesExposure(receipts, r, BurnForRedemption, vault);
    SameHashes(receipts, receipts', hash);
  }

  lemma IssueAnsweredExactlyWhen(s: State, i: IntakeId, newReceipt: ReceiptId)
    requires Issuable(s, i) && newReceipt !in s.receipts
    ensures var intake := s.intakes[i];
            IssueStep(s, i, newReceipt).result.Ok? <==>
              HasHash(s.receipts, intake.sealedHash.value)
              || Exposure(s.receipts, intake.vault) + intake.appraisals[|intake.appraisals| - 1]
                 <= s.limits[intake.vault]
  {}

  lemma SameHashes(receipts: map<ReceiptId, Receipt>, receipts': map<ReceiptId, Receipt>, hash: string)
    requires receipts.Keys == receipts'.Keys
    requires forall id :: id in receipts ==> receipts'[id].intakeHash == receipts[id].intakeHash
    ensures HasHash(receipts, hash) <==> HasHash(receipts', hash)
  {
    if HasHash(receipts, hash) {
      var id :| id in receipts && receipts[id].intakeHash == hash;
      assert id in receipts' && receipts'[id].intakeHash == hash;
    }
    if HasHash(receipts', hash) {
      var id :| id in receipts' && receipts'[id].intakeHash == hash;
      assert id in receipts && receipts[id].intakeHash == hash;
    }
  }

  /** A sealed intake, a vault's limit and the hash of a receipt never change. */
  ghost predicate Persists(s: State, later: State) {
    && (forall intake :: intake in s.intakes && s.intakes[intake].sealedHash.Some? ==>
          intake in later.intakes && later.intakes[intake] == s.intakes[intake])
    && (forall vault :: vault in s.limits ==> vault in later.limits && later.limits[vault] == s.limits[vault])
    && (forall id :: id in s.receipts ==>
          id in later.receipts && later.receipts[id].intakeHash == s.receipts[id].intakeHash)
  }

  lemma StepPersists(s: State, c: Command)
    ensures Persists(s, Step(s, c).state)
  {
    match c
    case IssueReceipt(intake, newReceipt) => IssuePersists(s, intake, newReceipt);
    case LendingEvent(receipt, event) => LendingPersists(s, receipt, event);
    case RequestRedemption(receipt, requestedBy, newRequest) => RequestPersists(s, receipt, requestedBy, newRequest);
    case VerifyRedemption(_, _) =>
    case ConfirmRelease(_, _, _) =>
    case OpenVault(_, _) => IntakePersists(s, c);
    case BeginIntake(_, _, _, _) => IntakePersists(s, c);
    case Appraise(_, _) => IntakePersists(s, c);
    case SealIntake(_, _) => IntakePersists(s, c);
  }

  lemma IssuePersists(s: State, intake: IntakeId, newReceipt: ReceiptId)
    ensures Persists(s, IssueStep(s, intake, newReceipt).state)
  {}

  lemma LendingPersists(s: State, receipt: ReceiptId, event: ReceiptEvent)
    ensures Persists(s, LendingStep(s, receipt, event).state)
  {}

  lemma RequestPersists(s: State, receipt: ReceiptId, requestedBy: UserId, newRequest: RequestId)
    ensures Persists(s, RequestStep(s, receipt, requestedBy, newRequest).state)
  {}

  lemma IntakePersists(s: State, c: Command)
    ensures Persists(s, IntakeStep(s, c).state)
  {}

  lemma {:induction false} RunPersists(s: State, commands: seq<Command>)
    ensures Persists(s, Run(s, commands))
  {
    if commands != [] {
      RunPersists(s, commands[..|commands| - 1]);
      StepPersists(Run(s, commands[..|commands| - 1]), commands[|commands| - 1]);
    }
  }

  lemma Replays(s: State, later: State, intake: IntakeId, receipt: ReceiptId, second: ReceiptId)
    requires Persists(s, later) && HashesUnique(later.receipts)
    requires intake in s.intakes && s.intakes[intake].sealedHash.Some? && s.intakes[intake].appraisals != []
    requires s.intakes[intake].vault in s.limits
    requires receipt in s.receipts && s.receipts[receipt].intakeHash == s.intakes[intake].sealedHash.value
    ensures IssueStep(later, intake, second) == Outcome(later, Ok(receipt))
  {
    assert later.receipts[receipt].intakeHash == s.intakes[intake].sealedHash.value;
    assert HasHash(later.receipts, s.intakes[intake].sealedHash.value);
  }

  /** What an answered issue leaves behind. */
  lemma IssuedFor(s: State, intake: IntakeId, first: ReceiptId)
    requires IssueStep(s, intake, first).result.Ok?
    ensures var issued := IssueStep(s, intake, first);
            var s' := issued.state;
            && intake in s'.intakes && s'.intakes[intake].sealedHash.Some? && s'.intakes[intake].appraisals != []
            && s'.intakes[intake].vault in s'.limits
            && issued.result.value in s'.receipts
            && s'.receipts[issued.result.value].intakeHash == s'.intakes[intake].sealedHash.value
  {}

  lemma ReplaysLater(s: State, issued: Outcome, intake: IntakeId, first: ReceiptId, later: State, between: seq<Command>,
                     second: ReceiptId)
    requires Sound(s) && issued == IssueStep(s, intake, first) && issued.result.Ok?
             && later == Run(issued.state, between)
    ensures IssueStep(later, intake, second) == Outcome(later, issued.result)
  {
    IssueKeeps(s, intake, first);
    RunKeeps(issued.state, between);
    RunPersists(issued.state, between);
    IssuedFor(s, intake, first);
    Replays(issued.state, later, intake, issued.result.value, second);
  }

  /** Once an intake has its receipt, issuing again at any later point returns that receipt and changes nothing,
      whatever has become of the receipt and however full the vault is by then. */
  lemma IssuingAgainReplays(commands: seq<Command>, intake: IntakeId, first: ReceiptId, between: seq<Command>,
                            second: ReceiptId)
    requires IssueStep(Run(Start, commands), intake, first).result.Ok?
    ensures var issued := IssueStep(Run(Start, commands), intake, first);
            var later := Run(issued.state, between);
            IssueStep(later, intake, second) == Outcome(later, issued.result)
  {
    var s := Run(Start, commands);
    var issued := IssueStep(s, intake, first);
    RunIsSound(commands);
    ReplaysLater(s, issued, intake, first, Run(issued.state, between), between, second);
  }

  /** A receipt is RELEASED exactly when one redemption request exists for it, and never more than one does. */
  lemma ReleasedMeansRequested(commands: seq<Command>, id: ReceiptId)
    requires id in Run(Start, commands).receipts
    ensures var s := Run(Start, commands); s.receipts[id].status == ReceiptReleased <==> IsRequested(s.requests, id)
    ensures var s := Run(Start, commands);
            forall r, q ::
              (r in s.requests && q in s.requests && s.requests[r].receipt == id && s.requests[q].receipt == id) ==>
                r == q
  {
    RunIsSound(commands);
  }

  /** An item is handed over at most once, and only after its request was verified. */
  lemma HandedOverOnceAndVerifiedFirst(commands: seq<Command>, i: nat, j: nat)
    requires var acts := Run(Start, commands).acts; i < |acts| && j < |acts| && acts[i].HandedAct? && acts[j].HandedAct?
    ensures var s := Run(Start, commands);
            && s.acts[i].request in s.requests && s.acts[j].request in s.requests
            && (s.requests[s.acts[i].request].receipt == s.requests[s.acts[j].request].receipt ==> i == j)
            && exists k :: 0 <= k < i && s.acts[k] == VerifiedAct(s.acts[i].request)
  {
    RunIsSound(commands);
    var s := Run(Start, commands);
    assert IsAct(s.acts, i, s.acts[i]) && IsAct(s.acts, j, s.acts[j]);
    var k :| IsAct(s.acts, k, VerifiedAct(s.acts[i].request)) && k < i;
  }

  // ----- the use cases on the tables -----

  class CustodyDesk {
    var limits: map<VaultId, nat>
    var intakes: map<IntakeId, Intake>
    var receipts: map<ReceiptId, Receipt>
    var requests: map<RequestId, Request>
    ghost var acts: seq<Act>

    ghost function View(): State
      reads this
    {
      State(limits, intakes, receipts, requests, acts)
    }

    constructor ()
      ensures View() == Start
    {
      limits, intakes, receipts, requests, acts := map[], map[], map[], map[], [];
    }

    /** The sum the vault's exposure query returns. */
    method ExposureOf(vault: VaultId) returns (exposure: nat)
      ensures exposure == Exposure(receipts, vault)
    {
      exposure := 0;
      var remaining := receipts;
      while remaining != map[]
        invariant exposure + Exposure(remaining, vault) == Exposure(receipts, vault)
        decreases |remaining|
      {
        var id :| id in remaining;
        ExposureRemove(remaining, id, vault);
        exposure := exposure + Exposes(remaining[id], vault);
        remaining := remaining - {id};
      }
    }

    method FindByIntakeRecordHash(hash: string) returns (found: Option<ReceiptId>)
      requires HashesUnique(receipts)
      ensures found == if HasHash(receipts, hash) then Some(WithHash(receipts, hash)) else None
    {
      if id :| id in receipts && receipts[id].intakeHash == hash {
        found := Some(id);
      } else {
        found := None;
      }
    }

    method IssueReceipt(intakeId: IntakeId, newReceipt: ReceiptId) returns (result: Result<nat>)
      requires HashesUnique(receipts)
      modifies this
      ensures Outcome(View(), result) == IssueStep(old(View()), intakeId, newReceipt)
    {
      if intakeId !in intakes {
        return Err(NotFound);
      }
      var intake := intakes[intakeId];
      if intake.sealedHash.None? {
        return Err(IntakeNotSealed);
      }
      if intake.vault !in limits {
        return Err(NotFound);
      }
      if |intake.appraisals| == 0 {
        return Err(IntakeIncomplete);
      }
      var value := intake.appraisals[|intake.appraisals| - 1];
      var existing := FindByIntakeRecordHash(intake.sealedHash.value);
      if existing.Some? {
        return Ok(existing.value);
      }
      var exposure := ExposureOf(intake.vault);
      if exposure + value > limits[intake.vault] {
        return Err(VaultInsuredLimitExceeded);
      }
      if newReceipt in receipts {
        return Err(DuplicateId);
      }
      receipts := receipts[newReceipt :=
        Issue(intake.vault, intake.borrower, intake.sealedHash.value, value, intake.category)];
      return Ok(newReceipt);
    }

    /** The burn and the request are one transaction: a failed save takes the burn back. */
    method RequestRedemption(receiptId: ReceiptId, requestedBy: UserId, newRequest: RequestId)
      returns (result: Result<nat>)
      modifies this
      ensures Outcome(View(), result) == RequestStep(old(View()), receiptId, requestedBy, newRequest)
    {
      if receiptId !in receipts {
        return Err(NotFound);
      }
      var receipt := receipts[receiptId];
      if receipt.holder != requestedBy {
        return Err(NotResourceOwner);
      }
      var burned := Apply(receipt, BurnForRedemption);
      if burned.Err? {
        return Err(burned.error);
      }
      var before := receipts;
      receipts := receipts[receiptId := burned.value];
      if newRequest in requests {
        receipts := before;
        return Err(DuplicateId);
      }
      requests := requests[newRequest := Request(receiptId, receipt.vault, requestedBy, Requested, None, None, None)];
      return Ok(newRequest);
    }

    method VerifyRedemption(requestId: RequestId, verifiedBy: StaffId) returns (result: Result<nat>)
      modifies this
      ensures Outcome(View(), result) == VerifyStep(old(View()), requestId, verifiedBy)
    {
      if requestId !in requests {
        return Err(NotFound);
      }
      var verified := Verify(requests[requestId], verifiedBy);
      if verified.Err? {
        return Err(verified.error);
      }
      requests := requests[requestId := verified.value];
      acts := acts + [VerifiedAct(requestId)];
      return Ok(requestId);
    }

    method ConfirmRelease(requestId: RequestId, releasedBy: StaffId, sealNumberBroken: string)
      returns (result: Result<nat>)
      modifies this
      ensures Outcome(View(), result) == ReleaseStep(old(View()), requestId, releasedBy, sealNumberBroken)
    {
      if requestId !in requests {
        return Err(NotFound);
      }
      var released := HandOver(requests[requestId], releasedBy, sealNumberBroken);
      if released.Err? {
        return Err(released.error);
      }
      requests := requests[requestId := released.value];
      acts := acts + [HandedAct(requestId)];
      return Ok(requestId);
    }
  }
}
