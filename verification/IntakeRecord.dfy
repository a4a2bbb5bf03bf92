/** The intake record: the canonical form behind its hash, and the seal that freezes it. */
module IntakeRecords {
  import opened Shared
  import opened StableSorting
  import CodeUnits

  /** `contentType` and `byteLength` stay out of the hash. */
  datatype EvidenceItem = EvidenceItem(
    labelText: string,
    contentHash: string,
    contentType: Option<string>,
    byteLength: Option<nat>)

  datatype HashedEvidence = HashedEvidence(labelText: string, contentHash: string)

  datatype Fields = Fields(
    id: string,
    vaultId: string,
    borrowerAccountId: string,
    itemCategory: string,
    itemDescription: string,
    serialNumbers: seq<string>,
    sealNumber: string,
    evidence: seq<EvidenceItem>)

  /** The value that is serialised and hashed. */
  datatype Canonical = Canonical(
    id: string,
    vaultId: string,
    borrowerAccountId: string,
    itemCategory: string,
    itemDescription: string,
    serialNumbers: seq<string>,
    sealNumber: string,
    evidence: seq<HashedEvidence>)

  // ----- the canonical form -----

  function SortKey(item: HashedEvidence): string {
    item.labelText + ":" + item.contentHash
  }

  predicate KeyInOrder(a: HashedEvidence, b: HashedEvidence) {
    CodeUnits.LessOrEqual(SortKey(a), SortKey(b))
  }

  predicate ItemInOrder(a: EvidenceItem, b: EvidenceItem) {
    KeyInOrder(Hashed(a), Hashed(b))
  }

  function Hashed(item: EvidenceItem): HashedEvidence {
    HashedEvidence(item.labelText, item.contentHash)
  }

  function HashedAll(items: seq<EvidenceItem>): (r: seq<HashedEvidence>)
    ensures |r| == |items|
  {
    if items == [] then [] else [Hashed(items[0])] + HashedAll(items[1..])
  }

  /** The evidence is sorted first and stripped afterwards. */
  function CanonicalEvidence(items: seq<EvidenceItem>): seq<HashedEvidence> {
    HashedAll(Sort(items, ItemInOrder))
  }

  function CanonicalForm(fields: Fields): Canonical {
    Canonical(fields.id, fields.vaultId, fields.borrowerAccountId, fields.itemCategory, fields.itemDescription,
              Sort(fields.serialNumbers, CodeUnits.LessOrEqual), fields.sealNumber, CanonicalEvidence(fields.evidence))
  }

  /** Fields that say the same: equal scalars, and equal serial numbers and hashed evidence as multisets. */
  ghost predicate SameContent(a: Fields, b: Fields) {
    && a.id == b.id && a.vaultId == b.vaultId && a.borrowerAccountId == b.borrowerAccountId
    && a.itemCategory == b.itemCategory && a.itemDescription == b.itemDescription && a.sealNumber == b.sealNumber
    && multiset(a.serialNumbers) == multiset(b.serialNumbers)
    && multiset(HashedAll(a.evidence)) == multiset(HashedAll(b.evidence))
  }

  /** No two different pieces of evidence share a sort key. */
  ghost predicate KeysDistinguish(evidence: seq<HashedEvidence>) {
    forall i, j :: 0 <= i < |evidence| && 0 <= j < |evidence| && SortKey(evidence[i]) == SortKey(evidence[j]) ==>
      evidence[i] == evidence[j]
  }

  lemma SerialOrder()
    ensures IsPreorder(CodeUnits.LessOrEqual)
  {
    forall a, b ensures CodeUnits.LessOrEqual(a, b) || CodeUnits.LessOrEqual(b, a) {
      CodeUnits.Total(a, b);
    }
    forall a, b, c | CodeUnits.LessOrEqual(a, b) && CodeUnits.LessOrEqual(b, c) ensures CodeUnits.LessOrEqual(a, c) {
      CodeUnits.Transitive(a, b, c);
    }
  }

  lemma EvidenceOrder()
    ensures IsPreorder(KeyInOrder)
  {
    forall a, b ensures KeyInOrder(a, b) || KeyInOrder(b, a) {
      CodeUnits.Total(SortKey(a), SortKey(b));
    }
    forall a, b, c | KeyInOrder(a, b) && KeyInOrder(b, c) ensures KeyInOrder(a, c) {
      CodeUnits.Transitive(SortKey(a), SortKey(b), SortKey(c));
    }
  }

  lemma TiesShareTheirKey(a: HashedEvidence, b: HashedEvidence)
    ensures Ties(a, b, KeyInOrder) <==> SortKey(a) == SortKey(b)
  {
    if Ties(a, b, KeyInOrder) {
      CodeUnits.Antisymmetric(SortKey(a), SortKey(b));
    }
    CodeUnits.Total(SortKey(a), SortKey(a));
  }

  /** Sorting commutes with stripping, because the order looks only at what is kept. */
  lemma {:induction false} InsertThenStrip(x: EvidenceItem, items: seq<EvidenceItem>)
    ensures HashedAll(Insert(x, items, ItemInOrder)) == Insert(Hashed(x), HashedAll(items), KeyInOrder)
  {
    if items == [] {
    } else if ItemInOrder(x, items[0]) {
      assert ([x] + items)[1..] == items;
    } else {
      InsertThenStrip(x, items[1..]);
      var rest := Insert(x, items[1..], ItemInOrder);
      assert ([items[0]] + rest)[1..] == rest;
      assert HashedAll(items)[1..] == HashedAll(items[1..]);
    }
  }

  lemma {:induction false} SortThenStrip(items: seq<EvidenceItem>)
    ensures CanonicalEvidence(items) == Sort(HashedAll(items), KeyInOrder)
  {
    if items != [] {
      SortThenStrip(items[1..]);
      InsertThenStrip(items[0], Sort(items[1..], ItemInOrder));
      assert HashedAll(items)[1..] == HashedAll(items[1..]);
    }
  }

  lemma SerialsSortEqually(s: seq<string>, t: seq<string>)
    ensures Sort(s, CodeUnits.LessOrEqual) == Sort(t, CodeUnits.LessOrEqual) <==> multiset(s) == multiset(t)
  {
    if multiset(s) == multiset(t) {
      SerialOrder();
      SortIsSorted(s, CodeUnits.LessOrEqual);
      SortIsSorted(t, CodeUnits.LessOrEqual);
      forall a, b | Ties(a, b, CodeUnits.LessOrEqual) ensures a == b {
        CodeUnits.Antisymmetric(a, b);
      }
      SortedIsUnique(Sort(s, CodeUnits.LessOrEqual), Sort(t, CodeUnits.LessOrEqual), CodeUnits.LessOrEqual);
    }
  }

  lemma EvidenceSortsEqually(s: seq<HashedEvidence>, t: seq<HashedEvidence>)
    requires multiset(s) == multiset(t) && KeysDistinguish(s)
    ensures Sort(s, KeyInOrder) == Sort(t, KeyInOrder)
  {
    var sorted := Sort(s, KeyInOrder);
    EvidenceOrder();
    SortIsSorted(s, KeyInOrder);
    SortIsSorted(t, KeyInOrder);
    forall a, b | a in sorted && b in sorted && Ties(a, b, KeyInOrder) ensures a == b {
      TiesShareTheirKey(a, b);
      InMultiset(sorted, s, a);
      InMultiset(sorted, s, b);
    }
    SortedIsUnique(sorted, Sort(t, KeyInOrder), KeyInOrder);
  }

  /** Two records get the same canonical form exactly when they say the same, for evidence whose sort keys
      tell different pieces apart. */
  lemma CanonicalFormIsContent(a: Fields, b: Fields)
    requires KeysDistinguish(HashedAll(a.evidence))
    ensures CanonicalForm(a) == CanonicalForm(b) <==> SameContent(a, b)
  {
    SortThenStrip(a.evidence);
    SortThenStrip(b.evidence);
    SerialsSortEqually(a.serialNumbers, b.serialNumbers);
    if SameContent(a, b) {
      EvidenceSortsEqually(HashedAll(a.evidence), HashedAll(b.evidence));
    }
  }

  /** Content hashes of one length make the keys tell pieces apart, whatever the labels contain. */
  lemma FixedLengthHashesDistinguish(evidence: seq<HashedEvidence>, length: nat)
    requires forall i :: 0 <= i < |evidence| ==> |evidence[i].contentHash| == length
    ensures KeysDistinguish(evidence)
  {
    forall i, j | 0 <= i < |evidence| && 0 <= j < |evidence| && SortKey(evidence[i]) == SortKey(evidence[j])
      ensures evidence[i] == evidence[j]
    {
      var x, y := evidence[i], evidence[j];
      assert SortKey(x)[..|x.labelText|] == x.labelText && SortKey(y)[..|y.labelText|] == y.labelText;
      assert SortKey(x)[|x.labelText| + 1..] == x.contentHash && SortKey(y)[|y.labelText| + 1..] == y.contentHash;
    }
  }

  /** With digests of one length, as SHA-256 gives, the canonical form depends on the content and nothing else. */
  lemma CanonicalFormWithDigests(a: Fields, b: Fields, length: nat)
    requires forall item :: item in a.evidence ==> |item.contentHash| == length
    ensures CanonicalForm(a) == CanonicalForm(b) <==> SameContent(a, b)
  {
    StrippedHashes(a.evidence, length);
    FixedLengthHashesDistinguish(HashedAll(a.evidence), length);
    CanonicalFormIsContent(a, b);
  }

  lemma {:induction false} StrippedHashes(items: seq<EvidenceItem>, length: nat)
    requires forall item :: item in items ==> |item.contentHash| == length
    ensures forall i :: 0 <= i < |HashedAll(items)| ==> |HashedAll(items)[i].contentHash| == length
  {
    if items != [] {
      StrippedHashes(items[1..], length);
    }
  }

  /** The hashed lists are the serial numbers and the stripped evidence, each in ascending order of its code units. */
  lemma CanonicalListsAreSorted(fields: Fields)
    ensures var form := CanonicalForm(fields);
            && multiset(form.serialNumbers) == multiset(fields.serialNumbers)
            && multiset(form.evidence) == multiset(HashedAll(fields.evidence))
            && (forall i, j :: 0 <= i < j < |form.serialNumbers| ==>
                  CodeUnits.LessOrEqual(form.serialNumbers[i], form.serialNumbers[j]))
            && (forall i, j :: 0 <= i < j < |form.evidence| ==>
                  CodeUnits.LessOrEqual(form.evidence[i].labelText + ":" + form.evidence[i].contentHash,
                                        form.evidence[j].labelText + ":" + form.evidence[j].contentHash))
  {
    SortThenStrip(fields.evidence);
    SerialOrder();
    SortIsSorted(fields.serialNumbers, CodeUnits.LessOrEqual);
    EvidenceOrder();
    SortIsSorted(HashedAll(fields.evidence), KeyInOrder);
    var sorted := Sort(HashedAll(fields.evidence), KeyInOrder);
    assert forall i, j :: 0 <= i < j < |sorted| ==> KeyInOrder(sorted[i], sorted[j]);
  }

  /** Exactly when the keys tell the evidence apart does its canonical form not depend on the order in which
      the evidence was attached. */
  lemma OrderIsForgottenExactlyWhenKeysDistinguish(evidence: seq<HashedEvidence>)
    ensures KeysDistinguish(evidence) <==>
            forall other :: multiset(other) == multiset(evidence) ==>
              Sort(other, KeyInOrder) == Sort(evidence, KeyInOrder)
  {
    if KeysDistinguish(evidence) {
      forall other | multiset(other) == multiset(evidence)
        ensures Sort(other, KeyInOrder) == Sort(evidence, KeyInOrder)
      {
        EvidenceSortsEqually(evidence, other);
      }
    } else {
      var i, j :| 0 <= i < |evidence| && 0 <= j < |evidence| && SortKey(evidence[i]) == SortKey(evidence[j])
                  && evidence[i] != evidence[j];
      var other := CollidingEvidenceHasTwoForms(evidence, evidence[i], evidence[j]);
    }
  }

  lemma CollidingEvidenceHasTwoForms(evidence: seq<HashedEvidence>, x: HashedEvidence, y: HashedEvidence)
    returns (other: seq<HashedEvidence>)
    requires x in evidence && y in evidence && SortKey(x) == SortKey(y) && x != y
    ensures multiset(other) == multiset(evidence) && Sort(other, KeyInOrder) != Sort(evidence, KeyInOrder)
  {
    var rest := TakeOutTwo(evidence, x, y);
    TwoOrdersDiffer(x, y, rest);
    other := if Sort([x, y] + rest, KeyInOrder) != Sort(evidence, KeyInOrder) then [x, y] + rest else [y, x] + rest;
  }

  lemma TakeOutTwo<T>(s: seq<T>, x: T, y: T) returns (rest: seq<T>)
    requires x in s && y in s && x != y
    ensures multiset([x, y] + rest) == multiset(s) && multiset([y, x] + rest) == multiset(s)
  {
    rest := Without(Without(s, x), y);
    TakenOutAndPutBack(multiset(s), x, y);
    ConsTwo(x, y, rest);
    ConsTwo(y, x, rest);
  }

  lemma TakenOutAndPutBack<T>(m: multiset<T>, x: T, y: T)
    requires x in m && y in m && x != y
    ensures multiset{x, y} + (m - multiset{x} - multiset{y}) == m == multiset{y, x} + (m - multiset{x} - multiset{y})
  {}

  lemma ConsTwo<T>(x: T, y: T, rest: seq<T>)
    ensures multiset([x, y] + rest) == multiset{x, y} + multiset(rest)
  {}

  lemma EvidenceSortIsStable(s: seq<HashedEvidence>, key: HashedEvidence)
    ensures TiesWith(Sort(s, KeyInOrder), key, KeyInOrder) == TiesWith(s, key, KeyInOrder)
  {
    EvidenceOrder();
    SortIsStable(s, key, KeyInOrder);
  }

  function Without<T(==)>(s: seq<T>, x: T): (r: seq<T>)
    ensures multiset(r) == multiset(s) - multiset{x}
  {
    if s == [] then []
    else
      assert s == [s[0]] + s[1..];
      if s[0] == x then s[1..] else [s[0]] + Without(s[1..], x)
  }

  lemma TwoOrdersDiffer(x: HashedEvidence, y: HashedEvidence, rest: seq<HashedEvidence>)
    requires SortKey(x) == SortKey(y) && x != y
    ensures Sort([x, y] + rest, KeyInOrder) != Sort([y, x] + rest, KeyInOrder)
  {
    TiesShareTheirKey(x, x);
    TiesShareTheirKey(y, x);
    EvidenceSortIsStable([x, y] + rest, x);
    EvidenceSortIsStable([y, x] + rest, x);
    TiesOfCons(x, [y] + rest, x, KeyInOrder);
    TiesOfCons(y, [x] + rest, x, KeyInOrder);
    assert [x, y] + rest == [x] + ([y] + rest);
    assert [y, x] + rest == [y] + ([x] + rest);
    assert TiesWith([x, y] + rest, x, KeyInOrder)[0] == x;
    assert TiesWith([y, x] + rest, x, KeyInOrder)[0] == y;
  }

  /** Labels may contain the separator, so without fixed-length hashes two pieces can share a key. */
  lemma KeysCanCollide()
    ensures var x, y := HashedEvidence("a", "b:c"), HashedEvidence("a:b", "c");
            x != y && SortKey(x) == SortKey(y) && !KeysDistinguish([x, y])
  {
    var x, y := HashedEvidence("a", "b:c"), HashedEvidence("a:b", "c");
    assert SortKey(x) == "a:b:c" == SortKey(y);
    assert [x, y][0] != [x, y][1];
  }

  // ----- the record -----

  datatype Status = DraftIntake | SealedIntake

  datatype Record = Record(
    id: string,
    vaultId: string,
    borrowerAccountId: string,
    itemCategory: string,
    itemDescription: string,
    serialNumbers: seq<string>,
    sealNumber: Option<string>,
    evidence: seq<EvidenceItem>,
    status: Status,
    sealedHash: Option<string>)

  datatype Appraisal = Appraisal(appraiser: string, value: int)

  datatype Edit =
    | DescribeItem(itemDescription: string, serialNumbers: seq<string>)
    | AttachEvidence(items: seq<EvidenceItem>)
    | RecordSealNumber(sealNumber: string)
    | Seal(appraisals: seq<Appraisal>, dualAppraisalThreshold: int)

  function Begin(id: string, vaultId: string, borrowerAccountId: string, itemCategory: string,
                 itemDescription: string): Record {
    Record(id, vaultId, borrowerAccountId, itemCategory, itemDescription, [], None, [], DraftIntake, None)
  }

  function Highest(appraisals: seq<Appraisal>): int
    requires appraisals != []
  {
    var last := appraisals[|appraisals| - 1].value;
    if |appraisals| == 1 then last
    else var earlier := Highest(appraisals[..|appraisals| - 1]); if last > earlier then last else earlier
  }

  /** At or above the threshold two different appraisers are needed. */
  predicate SufficientAppraisals(appraisals: seq<Appraisal>, threshold: int) {
    appraisals != []
    && (Highest(appraisals) < threshold || |set appraisal | appraisal in appraisals :: appraisal.appraiser| >= 2)
  }

  function FieldsOf(record: Record): Fields
    requires record.sealNumber.Some?
  {
    Fields(record.id, record.vaultId, record.borrowerAccountId, record.itemCategory, record.itemDescription,
           record.serialNumbers, record.sealNumber.value, record.evidence)
  }

  /** `digest` stands for serialising and hashing the canonical form. */
  function Apply(digest: Canonical -> string, record: Record, edit: Edit): Result<Record> {
    if record.status == SealedIntake then Err(IntakeAlreadySealed)
    else
      match edit
      case DescribeItem(itemDescription, serialNumbers) =>
        Ok(record.(itemDescription := itemDescription, serialNumbers := serialNumbers))
      case AttachEvidence(items) => Ok(record.(evidence := record.evidence + items))
      case RecordSealNumber(sealNumber) => Ok(record.(sealNumber := Some(sealNumber)))
      case Seal(appraisals, threshold) =>
        if record.evidence == [] then Err(IntakeIncomplete)
        else if record.sealNumber.None? || record.sealNumber.value == "" then Err(IntakeIncomplete)
        else if !SufficientAppraisals(appraisals, threshold)
             then Err(if appraisals == [] then IntakeIncomplete else DualAppraisalRequired)
        else Ok(record.(status := SealedIntake, sealedHash := Some(digest(CanonicalForm(FieldsOf(record))))))
  }

  lemma {:induction false} HighestIsMaximum(appraisals: seq<Appraisal>)
    requires appraisals != []
    ensures forall i :: 0 <= i < |appraisals| ==> appraisals[i].value <= Highest(appraisals)
    ensures exists i :: 0 <= i < |appraisals| && appraisals[i].value == Highest(appraisals)
  {
    var last := |appraisals| - 1;
    assert appraisals[last].value == Highest(appraisals) || last > 0;
    if last > 0 {
      HighestIsMaximum(appraisals[..last]);
      var i :| 0 <= i < last && appraisals[..last][i].value == Highest(appraisals[..last]);
      assert appraisals[i].value == Highest(appraisals) || appraisals[last].value == Highest(appraisals);
      forall j | 0 <= j < last ensures appraisals[j].value <= Highest(appraisals[..last]) {
        assert appraisals[j] == appraisals[..last][j];
      }
    }
  }

  lemma TwoAppraisers(appraisals: seq<Appraisal>)
    ensures |set appraisal | appraisal in appraisals :: appraisal.appraiser| >= 2
            <==> exists i, j :: 0 <= i < j < |appraisals| && appraisals[i].appraiser != appraisals[j].appraiser
  {
    var names := set appraisal | appraisal in appraisals :: appraisal.appraiser;
    if i, j :| 0 <= i < j < |appraisals| && appraisals[i].appraiser != appraisals[j].appraiser {
      assert {appraisals[i].appraiser, appraisals[j].appraiser} <= names;
      AtLeastAsMany({appraisals[i].appraiser, appraisals[j].appraiser}, names);
    } else if appraisals != [] {
      forall name | name in names ensures name == appraisals[0].appraiser {
        var k :| 0 <= k < |appraisals| && appraisals[k].appraiser == name;
      }
      AtLeastAsMany(names, {appraisals[0].appraiser});
    } else {
      assert names == {};
    }
  }

  lemma {:induction false} AtLeastAsMany<T>(small: set<T>, large: set<T>)
    requires small <= large
    ensures |small| <= |large|
  {
    assert large == small + (large - small);
  }

  /** A record is sealed exactly when it is a draft with evidence, a physical seal and an appraisal, and either
      every appraisal stays below the threshold or two different appraisers valued the item. */
  lemma SealExactlyWhen(digest: Canonical -> string, record: Record, appraisals: seq<Appraisal>, threshold: int)
    ensures Apply(digest, record, Seal(appraisals, threshold)).Ok? <==>
            && record.status == DraftIntake && record.evidence != []
            && record.sealNumber.Some? && record.sealNumber.value != "" && appraisals != []
            && ((forall i :: 0 <= i < |appraisals| ==> appraisals[i].value < threshold)
                || exists i, j :: 0 <= i < j < |appraisals| && appraisals[i].appraiser != appraisals[j].appraiser)
    ensures Apply(digest, record, Seal(appraisals, threshold)) == Err(DualAppraisalRequired) ==>
              exists i :: 0 <= i < |appraisals| && appraisals[i].value >= threshold
    ensures Apply(digest, record, Seal(appraisals, threshold)).Err? ==>
              Apply(digest, record, Seal(appraisals, threshold)).error
                == if record.status == SealedIntake then IntakeAlreadySealed
                   else if record.evidence == [] || record.sealNumber.None? || record.sealNumber.value == ""
                           || appraisals == []
                        then IntakeIncomplete
                   else DualAppraisalRequired
  {
    TwoAppraisers(appraisals);
    if appraisals != [] {
      HighestIsMaximum(appraisals);
    }
  }

  /** The record after a history of attempted edits; a refused one changes nothing. */
  function After(digest: Canonical -> string, record: Record, edits: seq<Edit>): Record {
    if edits == [] then record
    else
      var before := After(digest, record, edits[..|edits| - 1]);
      match Apply(digest, before, edits[|edits| - 1])
      case Ok(changed) => changed
      case Err(_) => before
  }

  /** Sealed exactly when it carries a hash, and then the hash is the digest of what it says. */
  ghost predicate HashSound(digest: Canonical -> string, record: Record) {
    && (record.status == SealedIntake <==> record.sealedHash.Some?)
    && (record.status == SealedIntake ==>
          record.evidence != [] && record.sealNumber.Some? && record.sealNumber.value != ""
          && record.sealedHash == Some(digest(CanonicalForm(FieldsOf(record)))))
  }

  lemma EditKeepsHashSound(digest: Canonical -> string, record: Record, edit: Edit)
    requires HashSound(digest, record) && Apply(digest, record, edit).Ok?
    ensures HashSound(digest, Apply(digest, record, edit).value)
  {}

  lemma {:induction false} EveryHistoryIsHashSound(digest: Canonical -> string, record: Record, edits: seq<Edit>)
    requires HashSound(digest, record)
    ensures HashSound(digest, After(digest, record, edits))
  {
    if edits != [] {
      EveryHistoryIsHashSound(digest, record, edits[..|edits| - 1]);
      var before := After(digest, record, edits[..|edits| - 1]);
      if Apply(digest, before, edits[|edits| - 1]).Ok? {
        EditKeepsHashSound(digest, before, edits[|edits| - 1]);
      }
    }
  }

  /** Over every history of a record begun as a draft: once sealed no edit changes it, and its hash is the
      digest of its canonical form ever after. */
  lemma {:induction false} SealedForever(digest: Canonical -> string, begun: Record, edits: seq<Edit>, more: seq<Edit>)
    requires begun.status == DraftIntake && begun.sealedHash.None?
    requires After(digest, begun, edits).status == SealedIntake
    ensures After(digest, begun, edits + more) == After(digest, begun, edits)
    ensures HashSound(digest, After(digest, begun, edits + more))
  {
    if more == [] {
      assert edits + more == edits;
      EveryHistoryIsHashSound(digest, begun, edits);
    } else {
      var init := more[..|more| - 1];
      SealedForever(digest, begun, edits, init);
      assert (edits + more)[..|edits + more| - 1] == edits + init;
    }
  }

  // ----- what a history of edits leaves -----

  /** What an edit writes into a draft: the evidence grows at its end, the item and the seal number are replaced, and
      sealing sets the status and the hash; everything else stays. */
  lemma EditWrites(digest: Canonical -> string, record: Record, edit: Edit)
    requires Apply(digest, record, edit).Ok?
    ensures var after := Apply(digest, record, edit).value;
            && record.status == DraftIntake
            && (edit.AttachEvidence? ==> after == record.(evidence := record.evidence + edit.items))
            && (edit.DescribeItem? ==>
                  after == record.(itemDescription := edit.itemDescription, serialNumbers := edit.serialNumbers))
            && (edit.RecordSealNumber? ==> after == record.(sealNumber := Some(edit.sealNumber)))
            && (edit.Seal? ==> after == record.(status := SealedIntake, sealedHash := after.sealedHash))
  {}

  /** Every batch attached, in order. */
  function Attached(edits: seq<Edit>): seq<EvidenceItem> {
    if edits == [] then []
    else
      var last := edits[|edits| - 1];
      Attached(edits[..|edits| - 1]) + (if last.AttachEvidence? then last.items else [])
  }

  /** The last description given, with its serial numbers, or `begun`. */
  function LastDescribed(begun: string, edits: seq<Edit>): (string, seq<string>) {
    if edits == [] then (begun, [])
    else if edits[|edits| - 1].DescribeItem? then
      (edits[|edits| - 1].itemDescription, edits[|edits| - 1].serialNumbers)
    else LastDescribed(begun, edits[..|edits| - 1])
  }

  function LastSealNumber(edits: seq<Edit>): Option<string> {
    if edits == [] then None
    else if edits[|edits| - 1].RecordSealNumber? then Some(edits[|edits| - 1].sealNumber)
    else LastSealNumber(edits[..|edits| - 1])
  }

  /** A draft holds every piece of evidence attached to it, in order, the last description and the last seal number. */
  lemma {:induction false} DraftHoldsEveryEdit(digest: Canonical -> string, id: string, vaultId: string,
                                               borrower: string, category: string, description: string,
                                               edits: seq<Edit>)
    requires After(digest, Begin(id, vaultId, borrower, category, description), edits).status == DraftIntake
    ensures After(digest, Begin(id, vaultId, borrower, category, description), edits)
         == Record(id, vaultId, borrower, category, LastDescribed(description, edits).0,
                   LastDescribed(description, edits).1, LastSealNumber(edits), Attached(edits), DraftIntake, None)
  {
    if edits != [] {
      var begun := Begin(id, vaultId, borrower, category, description);
      var earlier, last := edits[..|edits| - 1], edits[|edits| - 1];
      assert After(digest, begun, earlier).status == DraftIntake;
      DraftHoldsEveryEdit(digest, id, vaultId, borrower, category, description, earlier);
      if Apply(digest, After(digest, begun, earlier), last).Ok? {
        EditWrites(digest, After(digest, begun, earlier), last);
      } else {
        assert last.Seal?;
      }
    }
  }

  /** Once sealed a record holds, for ever, exactly what was attached, described and recorded before the seal, and its
      hash is the digest of the canonical form of just that. */
  lemma SealedRecordHoldsEveryEdit(digest: Canonical -> string, id: string, vaultId: string, borrower: string,
                                   category: string, description: string, edits: seq<Edit>, seal: Edit,
                                   more: seq<Edit>)
    requires var draft := After(digest, Begin(id, vaultId, borrower, category, description), edits);
             draft.status == DraftIntake && seal.Seal? && Apply(digest, draft, seal).Ok?
    ensures LastSealNumber(edits).Some?
    ensures var (text, serials) := LastDescribed(description, edits);
            var says := Fields(id, vaultId, borrower, category, text, serials, LastSealNumber(edits).value,
                               Attached(edits));
            After(digest, Begin(id, vaultId, borrower, category, description), edits + [seal] + more)
              == Record(id, vaultId, borrower, category, text, serials, LastSealNumber(edits), Attached(edits),
                        SealedIntake, Some(digest(CanonicalForm(says))))
  {
    var begun := Begin(id, vaultId, borrower, category, description);
    DraftHoldsEveryEdit(digest, id, vaultId, borrower, category, description, edits);
    assert (edits + [seal])[..|edits|] == edits;
    SealedForever(digest, begun, edits + [seal], more);
  }

  /** So with an injective digest two sealed records carry the same hash exactly when they say the same. */
  lemma SealedHashCommitsToContent(digest: Canonical -> string, a: Record, b: Record, length: nat)
    requires forall c, d :: digest(c) == digest(d) ==> c == d
    requires HashSound(digest, a) && HashSound(digest, b) && a.status == SealedIntake && b.status == SealedIntake
    requires forall item :: item in a.evidence ==> |item.contentHash| == length
    ensures a.sealedHash == b.sealedHash <==> SameContent(FieldsOf(a), FieldsOf(b))
  {
    CanonicalFormWithDigests(FieldsOf(a), FieldsOf(b), length);
  }
}
