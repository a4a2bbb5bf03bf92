/** Amounts in minor units. Division is `bigint` division, which truncates towards zero. */
module Money {

  function TruncatedQuotient(a: int, b: int): int
    requires b > 0
  {
    if a >= 0 then a / b else -((-a) / b)
  }

  const BasisPointScale := 10_000

  function MultiplyByBasisPoints(minorUnits: int, basisPoints: nat): int {
    TruncatedQuotient(minorUnits * basisPoints, BasisPointScale)
  }

  /** A cut of at most one hundred percent lies between nothing and the whole. */
  lemma BasisPointsWithin(minorUnits: int, basisPoints: nat)
    requires minorUnits >= 0
    ensures 0 <= MultiplyByBasisPoints(minorUnits, basisPoints)
    ensures basisPoints <= BasisPointScale ==> MultiplyByBasisPoints(minorUnits, basisPoints) <= minorUnits
  {
    assert minorUnits * basisPoints >= 0;
    if basisPoints <= BasisPointScale {
      assert minorUnits * basisPoints <= minorUnits * BasisPointScale;
    }
  }

  lemma BasisPointsMonotone(lower: int, upper: int, basisPoints: nat)
    requires 0 <= lower <= upper
    ensures MultiplyByBasisPoints(lower, basisPoints) <= MultiplyByBasisPoints(upper, basisPoints)
  {
    assert 0 <= lower * basisPoints <= upper * basisPoints;
  }

  /** What is left after the cut never shrinks when the whole grows. */
  lemma RemainderMonotone(lower: int, upper: int, basisPoints: nat)
    requires 0 <= lower <= upper && basisPoints <= BasisPointScale
    ensures lower - MultiplyByBasisPoints(lower, basisPoints) <= upper - MultiplyByBasisPoints(upper, basisPoints)
  {
    var step := upper - lower;
    assert upper * basisPoints == lower * basisPoints + step * basisPoints;
    assert 0 <= lower * basisPoints && 0 <= step * basisPoints <= step * BasisPointScale;
  }
}
