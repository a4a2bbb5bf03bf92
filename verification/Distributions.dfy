/** Who can be paid, and a list of payments. Platform actors appear as ordinary account ids. */
module Distributions {
  import opened Shared

  datatype Party = User(id: UserId) | PlatformFeeRevenue | PlatformRounding | PlatformFloat

  datatype Distribution = Distribution(party: Party, amount: int)

  function Total(lines: seq<Distribution>): int {
    if lines == [] then 0 else Total(lines[..|lines| - 1]) + lines[|lines| - 1].amount
  }

  lemma TotalAppend(lines: seq<Distribution>, line: Distribution)
    ensures Total(lines + [line]) == Total(lines) + line.amount
  {
    assert (lines + [line])[..|lines|] == lines;
  }

  /** What one party is paid by all the lines together. */
  function PaidTo(lines: seq<Distribution>, party: Party): int {
    if lines == [] then 0
    else
      var last := lines[|lines| - 1];
      PaidTo(lines[..|lines| - 1], party) + (if last.party == party then last.amount else 0)
  }

  lemma PaidToAppend(lines: seq<Distribution>, line: Distribution, party: Party)
    ensures PaidTo(lines + [line], party) == PaidTo(lines, party) + (if line.party == party then line.amount else 0)
  {
    assert (lines + [line])[..|lines|] == lines;
  }

  predicate AllPositive(lines: seq<Distribution>) {
    forall i :: 0 <= i < |lines| ==> lines[i].amount > 0
  }

  /** The lines that move something; the ledger refuses an entry of zero. */
  function DropEmpty(lines: seq<Distribution>): seq<Distribution> {
    if lines == [] then []
    else
      var last := lines[|lines| - 1];
      DropEmpty(lines[..|lines| - 1]) + (if last.amount == 0 then [] else [last])
  }

  lemma {:induction false} DropEmptyKeepsTotal(lines: seq<Distribution>)
    ensures Total(DropEmpty(lines)) == Total(lines)
  {
    if lines != [] {
      var init, last := lines[..|lines| - 1], lines[|lines| - 1];
      DropEmptyKeepsTotal(init);
      if last.amount == 0 {
        assert DropEmpty(lines) == DropEmpty(init);
      } else {
        TotalAppend(DropEmpty(init), last);
      }
    }
  }

  /** Nobody is paid more or less for it. */
  lemma {:induction false} DropEmptyPaysTheSame(lines: seq<Distribution>, party: Party)
    ensures PaidTo(DropEmpty(lines), party) == PaidTo(lines, party)
  {
    if lines != [] {
      var init, last := lines[..|lines| - 1], lines[|lines| - 1];
      DropEmptyPaysTheSame(init, party);
      if last.amount == 0 {
        assert DropEmpty(lines) == DropEmpty(init);
      } else {
        PaidToAppend(DropEmpty(init), last, party);
      }
    }
  }

  lemma {:induction false} DropEmptyIsPositive(lines: seq<Distribution>)
    requires forall i :: 0 <= i < |lines| ==> lines[i].amount >= 0
    ensures AllPositive(DropEmpty(lines))
  {
    if lines != [] {
      DropEmptyIsPositive(lines[..|lines| - 1]);
    }
  }
}
