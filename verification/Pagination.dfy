/** Browsing the market page by page: keyset paging under three sorts, and the cursor that carries it. */
module Pagination {
  import opened Shared
  import opened StableSorting
  import CodeUnits

  datatype ListingRow = ListingRow(
    id: string,
    active: bool,
    expiresAt: Instant,
    maxRate: nat,
    requestedPrincipal: nat,
    appraisedValue: nat,
    category: string)

  datatype Sorting = Newest | Rate | Closing

  datatype Filtering = Filtering(
    now: Instant,
    category: Option<string>,
    maximumLoanToValue: Option<nat>,
    sorting: Sorting,
    limit: nat)

  /** The parts of the platform's formatting the cursor relies on: reading a number, writing and reading a date. */
  datatype Formats = Formats(
    readNumber: string -> Option<int>, writeDate: Instant -> string, readDate: string -> Option<Instant>)

  ghost predicate Faithful(formats: Formats) {
    && (forall s :: s != "" && CodeUnits.AllDigits(s) ==> formats.readNumber(s) == Some(CodeUnits.ParseDecimal(s)))
    && (forall t :: formats.readDate(formats.writeDate(t)) == Some(t))
    && (forall t :: '|' !in formats.writeDate(t))
  }

  /** The laws can be met: write an instant as a signed decimal. */
  lemma SomeFormatsAreFaithful() returns (formats: Formats)
    ensures Faithful(formats)
  {
    var readNumber := (s: string) => if s != "" && CodeUnits.AllDigits(s) then Some(CodeUnits.ParseDecimal(s))
                                     else None;
    var writeDate := (t: Instant) => if t < 0 then "-" + CodeUnits.Decimal(-t) else CodeUnits.Decimal(t);
    var readDate := (s: string) => ReadSigned(s);
    formats := Formats(readNumber, writeDate, readDate);
    forall t: Instant ensures readDate(writeDate(t)) == Some(t) && '|' !in writeDate(t) {
      SignedRoundTrip(t);
    }
  }

  function ReadSigned(s: string): Option<Instant> {
    if s != "" && s[0] == '-' && CodeUnits.AllDigits(s[1..]) then var n: int := CodeUnits.ParseDecimal(s[1..]); Some(-n)
    else if s != "" && CodeUnits.AllDigits(s) then Some(CodeUnits.ParseDecimal(s))
    else None
  }

  lemma SignedRoundTrip(t: Instant)
    ensures var text := if t < 0 then "-" + CodeUnits.Decimal(-t) else CodeUnits.Decimal(t);
            ReadSigned(text) == Some(t) && '|' !in text
  {
    CodeUnits.DecimalRoundTrip(if t < 0 then -t else t);
    var digits := CodeUnits.Decimal(if t < 0 then -t else t);
    assert ("-" + digits)[1..] == digits;
    assert CodeUnits.IsDigit(digits[0]);
  }

  // ----- which rows, in which order -----

  predicate Matches(row: ListingRow, filter: Filtering) {
    && row.active
    && row.expiresAt > filter.now
    && (filter.category.None? || row.category == filter.category.value)
    && (filter.maximumLoanToValue.None?
        || (row.appraisedValue > 0
            && row.requestedPrincipal * 10_000 / row.appraisedValue <= filter.maximumLoanToValue.value))
  }

  predicate InOrder(sorting: Sorting, a: ListingRow, b: ListingRow) {
    match sorting
    case Newest => CodeUnits.LessOrEqual(b.id, a.id)
    case Rate => a.maxRate < b.maxRate || (a.maxRate == b.maxRate && CodeUnits.LessOrEqual(a.id, b.id))
    case Closing => a.expiresAt < b.expiresAt || (a.expiresAt == b.expiresAt && CodeUnits.LessOrEqual(a.id, b.id))
  }

  function Ordering(sorting: Sorting): (ListingRow, ListingRow) -> bool {
    (a: ListingRow, b: ListingRow) => InOrder(sorting, a, b)
  }

  // ----- the cursor -----

  /** A decoded cursor; a part that is absent or unreadable is null to the query. */
  datatype Cursor = Cursor(id: Option<string>, value: Option<int>, at: Option<Instant>)

  const NoCursor := Cursor(None, None, None)

  function IndexOfBar(s: string): (i: nat)
    ensures i <= |s| && '|' !in s[..i] && (i < |s| ==> s[i] == '|')
  {
    if s == "" || s[0] == '|' then 0 else IndexOfBar(s[1..]) + 1
  }

  function EncodeCursor(formats: Formats, sorting: Sorting, row: ListingRow): string {
    match sorting
    case Rate => row.id + "|" + CodeUnits.Decimal(row.maxRate)
    case Closing => row.id + "|" + formats.writeDate(row.expiresAt)
    case Newest => row.id
  }

  /** The first part is the id, the second is read both as a number and as a date; any further part is ignored. */
  function DecodeCursor(formats: Formats, cursor: Option<string>): Cursor {
    if cursor.None? then NoCursor
    else
      var text := cursor.value;
      var bar := IndexOfBar(text);
      if bar == 0 then NoCursor
      else if bar == |text| then Cursor(Some(text), None, None)
      else
        var rest := text[bar + 1..];
        var tail := rest[..IndexOfBar(rest)];
        Cursor(Some(text[..bar]), formats.readNumber(tail), formats.readDate(tail))
  }

  /** The keyset condition. A comparison with null is not true, so it selects nothing. */
  predicate Beyond(sorting: Sorting, cursor: Cursor, row: ListingRow) {
    cursor.id.None?
    || (match sorting
        case Newest => CodeUnits.Less(row.id, cursor.id.value)
        case Rate =>
          cursor.value.Some?
          && (row.maxRate > cursor.value.value
              || (row.maxRate == cursor.value.value && CodeUnits.Less(cursor.id.value, row.id)))
        case Closing =>
          cursor.at.Some?
          && (row.expiresAt > cursor.at.value
              || (row.expiresAt == cursor.at.value && CodeUnits.Less(cursor.id.value, row.id))))
  }

  // ----- one page, and all of them -----

  datatype Page = Page(items: seq<ListingRow>, nextCursor: Option<string>)

  /** Everything the filter matches, in the order asked for. */
  function Matching(table: seq<ListingRow>, filter: Filtering): seq<ListingRow> {
    Sort(Filter(table, (row: ListingRow) => Matches(row, filter)), Ordering(filter.sorting))
  }

  /** The matching rows beyond the cursor, sorted. */
  function Candidates(formats: Formats, table: seq<ListingRow>, filter: Filtering,
                      cursor: Option<string>): seq<ListingRow> {
    var decoded := DecodeCursor(formats, cursor);
    Sort(Filter(table, (row: ListingRow) => Matches(row, filter) && Beyond(filter.sorting, decoded, row)),
         Ordering(filter.sorting))
  }

  /** Fetches one row more than the page shows; that extra row is what makes a next cursor. */
  function PageOf(formats: Formats, filter: Filtering, candidates: seq<ListingRow>): Page {
    var rows := if |candidates| <= filter.limit + 1 then candidates else candidates[..filter.limit + 1];
    var items := if |rows| <= filter.limit then rows else rows[..filter.limit];
    Page(items, if |rows| > filter.limit && items != []
                then Some(EncodeCursor(formats, filter.sorting, items[|items| - 1])) else None)
  }

  function Browse(formats: Formats, table: seq<ListingRow>, filter: Filtering, cursor: Option<string>): Page {
    PageOf(formats, filter, Candidates(formats, table, filter, cursor))
  }

  /** Ids are unique, not empty, and never contain the separator. */
  ghost predicate WellKeyed(table: seq<ListingRow>) {
    && (forall i, j :: 0 <= i < j < |table| ==> table[i].id != table[j].id)
    && (forall i :: 0 <= i < |table| ==> table[i].id != "" && '|' !in table[i].id)
  }

  // ----- the cursor recovers what the sort resumes from -----

  lemma {:induction false} BarFound(before: string, after: string)
    requires '|' !in before
    ensures IndexOfBar(before + "|" + after) == |before|
    ensures IndexOfBar(before) == |before|
  {
    if before == "" {
      assert before + "|" + after == "|" + after;
    } else {
      BarFound(before[1..], after);
      assert (before + "|" + after)[1..] == before[1..] + "|" + after;
    }
  }

  lemma DecodeParts(formats: Formats, id: string, tail: string)
    requires id != "" && '|' !in id && '|' !in tail
    ensures DecodeCursor(formats, Some(id + "|" + tail))
              == Cursor(Some(id), formats.readNumber(tail), formats.readDate(tail))
  {
    var text := id + "|" + tail;
    BarFound(id, tail);
    BarFound(tail, "");
    assert text[|id| + 1..] == tail;
    assert text[..|id|] == id;
    assert tail[..|tail|] == tail;
  }

  /** Decoding recovers the id and the value the sort resumes from. */
  lemma CursorRoundTrip(formats: Formats, sorting: Sorting, row: ListingRow)
    requires Faithful(formats) && row.id != "" && '|' !in row.id
    ensures var cursor := DecodeCursor(formats, Some(EncodeCursor(formats, sorting, row)));
            && cursor.id == Some(row.id)
            && (sorting == Rate ==> cursor.value == Some(row.maxRate))
            && (sorting == Closing ==> cursor.at == Some(row.expiresAt))
  {
    match sorting
    case Newest => BarFound(row.id, "");
    case Rate =>
      var tail := CodeUnits.Decimal(row.maxRate);
      assert '|' !in tail;
      DecodeParts(formats, row.id, tail);
      CodeUnits.DecimalRoundTrip(row.maxRate);
    case Closing => DecodeParts(formats, row.id, formats.writeDate(row.expiresAt));
  }

  /** A cursor without an id reads as no cursor, and one without the value its sort needs selects nothing. */
  lemma MalformedCursors(formats: Formats, table: seq<ListingRow>, filter: Filtering, text: string)
    ensures text == "" || text[0] == '|' ==>
              Browse(formats, table, filter, Some(text)) == Browse(formats, table, filter, None)
    ensures var cursor := DecodeCursor(formats, Some(text));
            cursor.id.Some?
            && ((filter.sorting == Rate && cursor.value.None?) || (filter.sorting == Closing && cursor.at.None?))
            ==> Browse(formats, table, filter, Some(text)) == Page([], None)
  {
    var cursor := DecodeCursor(formats, Some(text));
    if cursor.id.Some? && ((filter.sorting == Rate && cursor.value.None?)
                           || (filter.sorting == Closing && cursor.at.None?)) {
      FilterNone(table, (row: ListingRow) => Matches(row, filter) && Beyond(filter.sorting, cursor, row));
    }
  }

  lemma {:induction false} FilterNone<T>(s: seq<T>, keep: T -> bool)
    requires forall x :: x in s ==> !keep(x)
    ensures Filter(s, keep) == []
  {
    if s != [] {
      FilterNone(s[1..], keep);
    }
  }

  // ----- the orders -----

  lemma OrderingIsAPreorder(sorting: Sorting)
    ensures IsPreorder(Ordering(sorting))
  {
    forall a, b ensures Ordering(sorting)(a, b) || Ordering(sorting)(b, a) {
      CodeUnits.Total(a.id, b.id);
    }
    forall a, b, c | Ordering(sorting)(a, b) && Ordering(sorting)(b, c) ensures Ordering(sorting)(a, c) {
      if CodeUnits.LessOrEqual(a.id, b.id) && CodeUnits.LessOrEqual(b.id, c.id) {
        CodeUnits.Transitive(a.id, b.id, c.id);
      }
      if CodeUnits.LessOrEqual(c.id, b.id) && CodeUnits.LessOrEqual(b.id, a.id) {
        CodeUnits.Transitive(c.id, b.id, a.id);
      }
    }
  }

  lemma TiesShareTheirId(sorting: Sorting, a: ListingRow, b: ListingRow)
    requires InOrder(sorting, a, b) && InOrder(sorting, b, a)
    ensures a.id == b.id
  {
    CodeUnits.Antisymmetric(a.id, b.id);
  }

  /** The keyset condition for the cursor of a row says exactly: strictly after that row. */
  lemma BeyondIsStrictlyAfter(formats: Formats, sorting: Sorting, last: ListingRow, row: ListingRow)
    requires Faithful(formats) && last.id != "" && '|' !in last.id
    ensures Beyond(sorting, DecodeCursor(formats, Some(EncodeCursor(formats, sorting, last))), row)
            <==> InOrder(sorting, last, row) && !InOrder(sorting, row, last)
  {
    CursorRoundTrip(formats, sorting, last);
    CodeUnits.Total(row.id, last.id);
    if CodeUnits.LessOrEqual(row.id, last.id) && CodeUnits.LessOrEqual(last.id, row.id) {
      CodeUnits.Antisymmetric(row.id, last.id);
    }
  }

  // ----- counting elements through sorting and filtering -----

  lemma {:induction false} FilterCount<T>(s: seq<T>, keep: T -> bool, x: T)
    ensures multiset(Filter(s, keep))[x] == if keep(x) then multiset(s)[x] else 0
  {
    if s != [] {
      FilterCount(s[1..], keep, x);
      assert s == [s[0]] + s[1..];
    }
  }

  lemma {:induction false} RowsOccurOnce(table: seq<ListingRow>, x: ListingRow)
    requires WellKeyed(table)
    ensures multiset(table)[x] <= 1
  {
    if table != [] {
      RowsOccurOnce(table[1..], x);
      assert table == [table[0]] + table[1..];
      if x == table[0] {
        assert x !in table[1..];
      }
    }
  }

  lemma RepeatsCountTwice<T>(s: seq<T>, i: nat, j: nat)
    requires i < j < |s| && s[i] == s[j]
    ensures multiset(s)[s[i]] >= 2
  {
    assert s == s[..j] + s[j..];
    assert s[..j][i] in multiset(s[..j]) && s[j..][0] in multiset(s[j..]);
  }

  /** The matching rows: each matching row of the table once, strictly in order. */
  lemma MatchingRows(table: seq<ListingRow>, filter: Filtering)
    requires WellKeyed(table)
    ensures var rows := Matching(table, filter);
            && (forall row :: row in rows <==> row in table && Matches(row, filter))
            && (forall i, j :: 0 <= i < j < |rows| ==> rows[i].id != rows[j].id)
            && IsSorted(rows, Ordering(filter.sorting))
  {
    var rows := Matching(table, filter);
    var keep := (row: ListingRow) => Matches(row, filter);
    OrderingIsAPreorder(filter.sorting);
    SortIsSorted(Filter(table, keep), Ordering(filter.sorting));
    forall row ensures row in rows <==> row in table && Matches(row, filter) {
      FilterMembers(table, keep, row);
      InMultiset(rows, Filter(table, keep), row);
    }
    forall i, j | 0 <= i < j < |rows| ensures rows[i].id != rows[j].id {
      if rows[i] == rows[j] {
        RepeatsCountTwice(rows, i, j);
        FilterCount(table, keep, rows[i]);
        RowsOccurOnce(table, rows[i]);
      }
      SameIdSameRow(table, rows[i], rows[j]);
    }
  }

  lemma SameIdSameRow(table: seq<ListingRow>, a: ListingRow, b: ListingRow)
    requires WellKeyed(table) && a in table && b in table
    ensures a.id == b.id ==> a == b
  {
    var i :| 0 <= i < |table| && table[i] == a;
    var j :| 0 <= j < |table| && table[j] == b;
    assert i < j ==> table[i].id != table[j].id;
    assert j < i ==> table[j].id != table[i].id;
  }

  /** A row matches exactly when it is active, unexpired, of the category asked for, and its loan-to-value rounded
      down is within the limit. */
  lemma MatchesExactlyWhen(row: ListingRow, filter: Filtering)
    ensures Matches(row, filter) <==>
            && row.active && filter.now < row.expiresAt
            && (filter.category == None || filter.category == Some(row.category))
            && (filter.maximumLoanToValue.Some? ==>
                  row.requestedPrincipal * 10_000 < (filter.maximumLoanToValue.value + 1) * row.appraisedValue)
  {
    if filter.maximumLoanToValue.Some? && row.appraisedValue > 0 {
      FloorWithin(row.requestedPrincipal * 10_000, row.appraisedValue, filter.maximumLoanToValue.value);
    }
  }

  lemma FloorWithin(n: nat, d: nat, limit: nat)
    requires d > 0
    ensures n / d <= limit <==> n < (limit + 1) * d
  {
    if n / d <= limit {
      assert (n / d + 1) * d <= (limit + 1) * d;
    } else {
      assert (limit + 1) * d <= n / d * d;
    }
  }

  /** The order a reader sees: newest id first, or cheapest first, or closing soonest first, ids breaking ties
      upwards. */
  lemma MatchingRowsAreInOrder(table: seq<ListingRow>, filter: Filtering, i: nat, j: nat)
    requires WellKeyed(table) && i < j < |Matching(table, filter)|
    ensures var a, b := Matching(table, filter)[i], Matching(table, filter)[j];
            match filter.sorting
            case Newest => CodeUnits.Less(b.id, a.id)
            case Rate => a.maxRate < b.maxRate || (a.maxRate == b.maxRate && CodeUnits.Less(a.id, b.id))
            case Closing => a.expiresAt < b.expiresAt || (a.expiresAt == b.expiresAt && CodeUnits.Less(a.id, b.id))
  {
    MatchingRows(table, filter);
    assert Ordering(filter.sorting)(Matching(table, filter)[i], Matching(table, filter)[j]);
  }

  // ----- the pages -----

  /** The cursor that resumes after the first `k` matching rows. */
  function CursorAt(formats: Formats, filter: Filtering, rows: seq<ListingRow>, k: nat): Option<string>
    requires k <= |rows|
  {
    if k == 0 then None else Some(EncodeCursor(formats, filter.sorting, rows[k - 1]))
  }

  lemma BeyondSplitsAt(formats: Formats, table: seq<ListingRow>, filter: Filtering, k: nat, i: nat)
    requires Faithful(formats) && WellKeyed(table)
    requires var rows := Matching(table, filter); k <= |rows| && i < |rows|
    ensures var rows := Matching(table, filter);
            Beyond(filter.sorting, DecodeCursor(formats, CursorAt(formats, filter, rows, k)), rows[i]) <==> i >= k
  {
    var rows := Matching(table, filter);
    if k > 0 {
      MatchingRows(table, filter);
      var last := rows[k - 1];
      assert last in table;
      BeyondIsStrictlyAfter(formats, filter.sorting, last, rows[i]);
      if i >= k {
        assert Ordering(filter.sorting)(last, rows[i]);
        if InOrder(filter.sorting, rows[i], last) {
          TiesShareTheirId(filter.sorting, last, rows[i]);
        }
      } else if i < k - 1 {
        assert Ordering(filter.sorting)(rows[i], last);
      }
    }
  }

  lemma SliceCount<T>(s: seq<T>, k: nat, x: T)
    requires k <= |s|
    ensures x !in s[..k] ==> multiset(s[k..])[x] == multiset(s)[x]
    ensures x !in s[k..] ==> multiset(s[k..])[x] == 0
  {
    assert s == s[..k] + s[k..];
    assert x in multiset(s[..k]) <==> x in s[..k];
    assert x in multiset(s[k..]) <==> x in s[k..];
  }

  lemma CandidateCount(formats: Formats, table: seq<ListingRow>, filter: Filtering, cursor: Option<string>,
                       x: ListingRow)
    ensures multiset(Candidates(formats, table, filter, cursor))[x]
            == if Beyond(filter.sorting, DecodeCursor(formats, cursor), x) then multiset(Matching(table, filter))[x]
               else 0
  {
    var decoded := DecodeCursor(formats, cursor);
    FilterCount(table, (row: ListingRow) => Matches(row, filter), x);
    FilterCount(table, (row: ListingRow) => Matches(row, filter) && Beyond(filter.sorting, decoded, row), x);
  }

  /** The rows already seen are not beyond the cursor, the others are. */
  lemma BeyondSplits(formats: Formats, table: seq<ListingRow>, filter: Filtering, k: nat, x: ListingRow)
    requires Faithful(formats) && WellKeyed(table) && k <= |Matching(table, filter)|
    ensures var rows := Matching(table, filter);
            var beyond := Beyond(filter.sorting, DecodeCursor(formats, CursorAt(formats, filter, rows, k)), x);
            (x in rows[..k] ==> !beyond) && (x in rows[k..] ==> beyond)
  {
    var rows := Matching(table, filter);
    if x in rows[..k] {
      var j :| 0 <= j < k && rows[j] == x;
      BeyondSplitsAt(formats, table, filter, k, j);
    }
    if x in rows[k..] {
      var j :| k <= j < |rows| && rows[j] == x;
      BeyondSplitsAt(formats, table, filter, k, j);
    }
  }

  lemma RestCounts(formats: Formats, table: seq<ListingRow>, filter: Filtering, k: nat, x: ListingRow)
    requires Faithful(formats) && WellKeyed(table) && k <= |Matching(table, filter)|
    ensures var rows := Matching(table, filter);
            multiset(Candidates(formats, table, filter, CursorAt(formats, filter, rows, k)))[x]
              == multiset(rows[k..])[x]
  {
    var rows := Matching(table, filter);
    CandidateCount(formats, table, filter, CursorAt(formats, filter, rows, k), x);
    SliceCount(rows, k, x);
    BeyondSplits(formats, table, filter, k, x);
  }

  lemma MatchingRowsDoNotTie(table: seq<ListingRow>, filter: Filtering, a: ListingRow, b: ListingRow)
    requires WellKeyed(table) && a in Matching(table, filter) && b in Matching(table, filter)
    requires Ties(a, b, Ordering(filter.sorting))
    ensures a == b
  {
    MatchingRows(table, filter);
    TiesShareTheirId(filter.sorting, a, b);
    SameIdSameRow(table, a, b);
  }

  lemma CandidatesAreSorted(formats: Formats, table: seq<ListingRow>, filter: Filtering, cursor: Option<string>)
    ensures IsSorted(Candidates(formats, table, filter, cursor), Ordering(filter.sorting))
  {
    var decoded := DecodeCursor(formats, cursor);
    OrderingIsAPreorder(filter.sorting);
    SortIsSorted(Filter(table, (row: ListingRow) => Matches(row, filter) && Beyond(filter.sorting, decoded, row)),
                 Ordering(filter.sorting));
  }

  lemma CandidatesHoldTheRest(formats: Formats, table: seq<ListingRow>, filter: Filtering, k: nat)
    requires Faithful(formats) && WellKeyed(table) && k <= |Matching(table, filter)|
    ensures var rows := Matching(table, filter);
            multiset(Candidates(formats, table, filter, CursorAt(formats, filter, rows, k))) == multiset(rows[k..])
  {
    var rows := Matching(table, filter);
    forall x
      ensures multiset(Candidates(formats, table, filter, CursorAt(formats, filter, rows, k)))[x]
                == multiset(rows[k..])[x]
    {
      RestCounts(formats, table, filter, k, x);
    }
  }

  lemma SortedRestIsUnique(table: seq<ListingRow>, filter: Filtering, candidates: seq<ListingRow>, k: nat)
    requires WellKeyed(table) && k <= |Matching(table, filter)|
    requires multiset(candidates) == multiset(Matching(table, filter)[k..])
    requires IsSorted(candidates, Ordering(filter.sorting))
    ensures candidates == Matching(table, filter)[k..]
  {
    var rest := Matching(table, filter)[k..];
    var le := Ordering(filter.sorting);
    MatchingRows(table, filter);
    forall a, b | a in candidates && b in candidates && Ties(a, b, le) ensures a == b {
      InMultiset(candidates, rest, a);
      InMultiset(candidates, rest, b);
      MatchingRowsDoNotTie(table, filter, a, b);
    }
    SortedIsUnique(candidates, rest, le);
  }

  /** What the query selects after `k` rows have been seen is the rest of the matching rows. */
  lemma CandidatesAreTheRest(formats: Formats, table: seq<ListingRow>, filter: Filtering, k: nat)
    requires Faithful(formats) && WellKeyed(table) && k <= |Matching(table, filter)|
    ensures var rows := Matching(table, filter);
            Candidates(formats, table, filter, CursorAt(formats, filter, rows, k)) == rows[k..]
  {
    var cursor := CursorAt(formats, filter, Matching(table, filter), k);
    CandidatesHoldTheRest(formats, table, filter, k);
    CandidatesAreSorted(formats, table, filter, cursor);
    SortedRestIsUnique(table, filter, Candidates(formats, table, filter, cursor), k);
  }

  function Min(a: nat, b: nat): nat {
    if a < b then a else b
  }

  /** Cursors by how many rows they stand behind. */
  function Cursors(formats: Formats, filter: Filtering, rows: seq<ListingRow>): nat -> Option<string> {
    (k: nat) => if k <= |rows| then CursorAt(formats, filter, rows, k) else None
  }

  /** The page of `rows` that starts at `k`. */
  function SlicePage(cursors: nat -> Option<string>, limit: nat, rows: seq<ListingRow>, k: nat): Page
    requires k <= |rows|
  {
    var end := Min(k + limit, |rows|);
    Page(rows[k..end], if end < |rows| then cursors(end) else None)
  }

  lemma PageOfIsASlice(formats: Formats, filter: Filtering, rows: seq<ListingRow>, k: nat)
    requires k <= |rows| && filter.limit > 0
    ensures PageOf(formats, filter, rows[k..]) == SlicePage(Cursors(formats, filter, rows), filter.limit, rows, k)
  {
    var candidates := rows[k..];
    if |candidates| <= filter.limit {
      assert candidates == rows[k..|rows|];
    } else if |candidates| == filter.limit + 1 {
      assert candidates[..filter.limit] == rows[k..k + filter.limit];
    } else {
      assert candidates[..filter.limit + 1][..filter.limit] == rows[k..k + filter.limit];
    }
  }

  /** A page picks up exactly where the one before it stopped. */
  lemma PageFrom(formats: Formats, table: seq<ListingRow>, filter: Filtering, k: nat)
    requires Faithful(formats) && WellKeyed(table) && filter.limit > 0 && k <= |Matching(table, filter)|
    ensures var rows := Matching(table, filter);
            Browse(formats, table, filter, CursorAt(formats, filter, rows, k))
            == SlicePage(Cursors(formats, filter, rows), filter.limit, rows, k)
  {
    CandidatesAreTheRest(formats, table, filter, k);
    PageOfIsASlice(formats, filter, Matching(table, filter), k);
  }

  /** The page a reader sees after following the cursor `n` times, if there is one. */
  function PageAt(browse: Option<string> -> Page, n: nat): Option<Page> {
    if n == 0 then Some(browse(None)) else NextPage(browse, PageAt(browse, n - 1))
  }

  function NextPage(browse: Option<string> -> Page, before: Option<Page>): Option<Page> {
    if before.None? || before.value.nextCursor.None? then None else Some(browse(before.value.nextCursor))
  }

  function FirstPages(browse: Option<string> -> Page, n: nat): seq<ListingRow> {
    if n == 0 then []
    else
      var page := PageAt(browse, n - 1);
      FirstPages(browse, n - 1) + (if page.Some? then page.value.items else [])
  }

  /** How many rows `n` full pages hold. */
  function Capacity(n: nat, limit: nat): nat {
    if n == 0 then 0 else Capacity(n - 1, limit) + limit
  }

  lemma {:induction false} CapacityIsProduct(n: nat, limit: nat)
    ensures Capacity(n, limit) == n * limit
  {
    if n > 0 {
      CapacityIsProduct(n - 1, limit);
      assert (n - 1) * limit + limit == n * limit;
    }
  }

  /** The slice at `start`, if `start` is where a page begins. */
  function PageAtRow(cursors: nat -> Option<string>, limit: nat, rows: seq<ListingRow>, start: nat): Option<Page> {
    if start == 0 || start < |rows| then Some(SlicePage(cursors, limit, rows, start)) else None
  }

  /** `browse` resumes after any number of rows with the slice that follows them. */
  ghost predicate Serves(browse: Option<string> -> Page, cursors: nat -> Option<string>, limit: nat,
                         rows: seq<ListingRow>) {
    && limit > 0
    && cursors(0) == None
    && (forall k: nat :: 0 < k <= |rows| ==> cursors(k).Some?)
    && (forall k: nat :: k <= |rows| ==> browse(cursors(k)) == SlicePage(cursors, limit, rows, k))
  }

  lemma NextPageIsTheNextSlice(browse: Option<string> -> Page, cursors: nat -> Option<string>, limit: nat,
                               rows: seq<ListingRow>, start: nat)
    requires Serves(browse, cursors, limit, rows)
    ensures NextPage(browse, PageAtRow(cursors, limit, rows, start)) == PageAtRow(cursors, limit, rows, start + limit)
  {
    var next := start + limit;
    if next < |rows| {
      assert SlicePage(cursors, limit, rows, start).nextCursor == cursors(next);
      assert browse(cursors(next)) == SlicePage(cursors, limit, rows, next);
    } else if start == 0 || start < |rows| {
      assert SlicePage(cursors, limit, rows, start).nextCursor == None;
    }
  }

  /** If the next page of the one at `k` is the one at `k + step`, the `n`th page is the one at `n` steps. */
  lemma {:induction false} PageAtSteps(browse: Option<string> -> Page, at: nat -> Option<Page>, step: nat, n: nat)
    requires at(0) == Some(browse(None))
    requires forall k: nat :: NextPage(browse, at(k)) == at(k + step)
    ensures PageAt(browse, n) == at(Capacity(n, step))
  {
    if n > 0 {
      PageAtSteps(browse, at, step, n - 1);
    }
  }

  lemma PageAtIsTheSlice(browse: Option<string> -> Page, cursors: nat -> Option<string>, limit: nat,
                         rows: seq<ListingRow>, n: nat)
    requires Serves(browse, cursors, limit, rows)
    ensures PageAt(browse, n) == PageAtRow(cursors, limit, rows, Capacity(n, limit))
  {
    var at := (k: nat) => PageAtRow(cursors, limit, rows, k);
    assert browse(cursors(0)) == SlicePage(cursors, limit, rows, 0);
    forall k: nat ensures NextPage(browse, at(k)) == at(k + limit) {
      NextPageIsTheNextSlice(browse, cursors, limit, rows, k);
    }
    PageAtSteps(browse, at, limit, n);
  }

  lemma SliceExtends(cursors: nat -> Option<string>, limit: nat, rows: seq<ListingRow>, start: nat)
    requires limit > 0
    ensures var page := PageAtRow(cursors, limit, rows, start);
            rows[..Min(start, |rows|)] + (if page.Some? then page.value.items else [])
              == rows[..Min(start + limit, |rows|)]
  {
    if start < |rows| {
      assert PageAtRow(cursors, limit, rows, start).value.items == rows[start..Min(start + limit, |rows|)];
    }
  }

  lemma {:induction false} FirstPagesArePrefix(browse: Option<string> -> Page, cursors: nat -> Option<string>,
                                               limit: nat, rows: seq<ListingRow>, n: nat)
    requires Serves(browse, cursors, limit, rows)
    ensures FirstPages(browse, n) == rows[..Min(Capacity(n, limit), |rows|)]
  {
    if n > 0 {
      FirstPagesArePrefix(browse, cursors, limit, rows, n - 1);
      PageAtIsTheSlice(browse, cursors, limit, rows, n - 1);
      SliceExtends(cursors, limit, rows, Capacity(n - 1, limit));
    }
  }

  /** Following the cursor from nothing ends, and the pages put together are the whole sorted list, each
      listing once: `n` pages hold the first `n * limit` rows, and no further page is offered exactly when
      those are all. */
  lemma PagesAreTheWholeList(formats: Formats, table: seq<ListingRow>, filter: Filtering, n: nat)
    requires Faithful(formats) && WellKeyed(table) && filter.limit > 0
    ensures var rows := Matching(table, filter);
            var browse := (cursor: Option<string>) => Browse(formats, table, filter, cursor);
            && FirstPages(browse, n) == rows[..Min(n * filter.limit, |rows|)]
            && (n > 0 ==> (PageAt(browse, n).None? <==> n * filter.limit >= |rows|))
            && (n * filter.limit >= |rows| ==> FirstPages(browse, n) == rows)
  {
    var rows := Matching(table, filter);
    var browse := (cursor: Option<string>) => Browse(formats, table, filter, cursor);
    var cursors := Cursors(formats, filter, rows);
    forall k: nat | k <= |rows| ensures browse(cursors(k)) == SlicePage(cursors, filter.limit, rows, k) {
      PageFrom(formats, table, filter, k);
    }
    FirstPagesArePrefix(browse, cursors, filter.limit, rows, n);
    PageAtIsTheSlice(browse, cursors, filter.limit, rows, n);
    CapacityIsProduct(n, filter.limit);
    assert rows[..|rows|] == rows;
  }
}
