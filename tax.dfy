/** The tax-inclusive total of the cart page: int(total * (TAX_RATE + 1)),
    with the configured rate held as an exact fraction and Python's int()
    written out as truncation toward zero. */
module Tax {

  /** The tax rate num / den. */
  datatype Rate = Rate(num: int, den: int)

  /** Python's int() on the quotient a / d: the fraction is dropped, so the
      result moves toward zero (Dafny's own / rounds down for a < 0). */
  function TruncDiv(a: int, d: int): (q: int)
    requires d > 0
    ensures 0 <= a ==> 0 <= q && q * d <= a < q * d + d
    ensures a < 0 ==> q <= 0 && q * d - d < a <= q * d
  {
    if 0 <= a then FloorDiv(a, d); a / d
    else FloorDiv(-a, d); -((-a) / d)
  }

  /** Dafny's / on a non-negative dividend: the floor of the quotient. */
  lemma FloorDiv(a: int, d: int)
    requires 0 <= a && d > 0
    ensures 0 <= a / d && (a / d) * d <= a < (a / d) * d + d
  {
    assert a == d * (a / d) + a % d;
  }

  /** int(total * (rate + 1)) = int(total * (num + den) / den): the floor of
      the exact product when it is not negative, its ceiling when it is. */
  function TaxIncluded(total: int, rate: Rate): (t: int)
    requires rate.den > 0
    ensures 0 <= total * (rate.num + rate.den) ==>
              t * rate.den <= total * (rate.num + rate.den) < t * rate.den + rate.den
    ensures total * (rate.num + rate.den) < 0 ==>
              t * rate.den - rate.den < total * (rate.num + rate.den) <= t * rate.den
  {
    TruncDiv(total * (rate.num + rate.den), rate.den)
  }

  lemma MulMonotone(x: int, y: int, d: int)
    requires d > 0 && x * d < y * d
    ensures x < y
  {
  }

  /** For a non-negative total and rate the tax-inclusive total lies between
      the total and total * (1 + rate), and is the largest integer not above
      the latter. */
  lemma TaxIncludedBounds(total: int, rate: Rate)
    requires total >= 0 && rate.num >= 0 && rate.den > 0
    ensures total <= TaxIncluded(total, rate)
    ensures TaxIncluded(total, rate) * rate.den <= total * (rate.num + rate.den)
    ensures total * (rate.num + rate.den) < (TaxIncluded(total, rate) + 1) * rate.den
  {
    var a := total * (rate.num + rate.den);
    var t := TaxIncluded(total, rate);
    assert a == total * rate.num + total * rate.den;
    assert total * rate.num >= 0;
    assert t * rate.den + rate.den == (t + 1) * rate.den;
    MulMonotone(total, t + 1, rate.den);
  }

  /** A negative total is truncated upward, toward zero: the result lies in
      [total * (1 + rate), total * (1 + rate) + 1). */
  lemma TaxIncludedNegative(total: int, rate: Rate)
    requires total < 0 && rate.num + rate.den > 0 && rate.den > 0
    ensures total * (rate.num + rate.den) <= TaxIncluded(total, rate) * rate.den
    ensures (TaxIncluded(total, rate) - 1) * rate.den < total * (rate.num + rate.den)
  {
    var a := total * (rate.num + rate.den);
    assert a < 0 by {
      assert (-total) * (rate.num + rate.den) > 0;
    }
    var t := TaxIncluded(total, rate);
    assert t * rate.den - rate.den == (t - 1) * rate.den;
  }

  /** A zero rate leaves the total as it is. */
  lemma ZeroRateKeepsTotal(total: int, den: int)
    requires den > 0
    ensures TaxIncluded(total, Rate(0, den)) == total
  {
    var t := TaxIncluded(total, Rate(0, den));
    if total >= 0 {
      MulMonotone(total, t + 1, den);
      MulMonotone(t, total + 1, den);
    } else {
      MulMonotone(t - 1, total, den);
      MulMonotone(total - 1, t, den);
    }
  }

  /** Ten per cent tax: 2000 -> 2200, 1000 -> 1100, 999 -> 1098 (1098.9
      truncated), and -999 -> -1098 (toward zero, not -1099). */
  lemma TenPercentExamples()
    ensures TaxIncluded(2000, Rate(1, 10)) == 2200
    ensures TaxIncluded(1000, Rate(1, 10)) == 1100
    ensures TaxIncluded(999, Rate(1, 10)) == 1098
    ensures TaxIncluded(-999, Rate(1, 10)) == -1098
  {
  }
}
