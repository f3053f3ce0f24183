/**
 Money arithmetic of `precision.ts`: rounding, profit, margin and the split of a price
 that already includes its tax.
 */
module Precision {
  import opened Wrappers
  import opened DecimalText
  import opened Decimals

  /** A missing value counts as zero. */
  function ToBig(value: Option<Decimal>): Decimal {
    if value.None? then Decimal(0, 0) else value.value
  }

  function PreciseNumber(value: Decimal, scale: nat): Decimal {
    Round(value, scale)
  }

  function CalculateProfit(salePrice: Option<Decimal>, cost: Option<Decimal>): Decimal {
    PreciseNumber(Minus(ToBig(salePrice), ToBig(cost)), 2)
  }

  function CalculateMargin(salePrice: Option<Decimal>, cost: Option<Decimal>): Decimal {
    var price := ToBig(salePrice);
    if price.units == 0 then Decimal(0, 4)
    else
      var profit := Minus(price, ToBig(cost));
      PreciseNumber(Times(Div(profit, price), Decimal(100, 0)), 4)
  }

  datatype TaxBreakdown = TaxBreakdown(taxableBase: Decimal, taxAmount: Decimal)

  function ComputeTaxBreakdown(finalPrice: Option<Decimal>, ratePercent: Option<Decimal>): TaxBreakdown {
    var price, rate := ToBig(finalPrice), ToBig(ratePercent);
    if rate.units <= 0 then
      TaxBreakdown(PreciseNumber(price, 2), Decimal(0, 2))
    else
      var divisor := Plus(Div(rate, Decimal(100, 0)), Decimal(1, 0));
      assert divisor.units > 0 by { DivisorPositive(rate); }
      var taxableBase := PreciseNumber(Div(price, divisor), 2);
      TaxBreakdown(taxableBase, PreciseNumber(Minus(price, taxableBase), 2))
  }

  lemma DivisorPositive(rate: Decimal)
    requires rate.units > 0
    ensures Plus(Div(rate, Decimal(100, 0)), Decimal(1, 0)).units > 0
  {
    RoundNonNegative(rate.units * PowerOfTen(DP), 100 * PowerOfTen(rate.scale));
  }

  /** A price in whole cents, a rate with two decimals. */
  function Cents(p: int): Option<Decimal> {
    Some(Decimal(p, 2))
  }

  /** The base of `p` cents at rate `r` hundredths of a percent, in cents. */
  function Base(p: int, r: int): int {
    ComputeTaxBreakdown(Cents(p), Cents(r)).taxableBase.units
  }

  function Tax(p: int, r: int): int {
    ComputeTaxBreakdown(Cents(p), Cents(r)).taxAmount.units
  }

  lemma Powers()
    ensures PowerOfTen(0) == 1 && PowerOfTen(2) == 100 && PowerOfTen(4) == 1_0000 && PowerOfTen(6) == 100_0000
    ensures PowerOfTen(8) == 1_0000_0000 && PowerOfTen(10) == 100_0000_0000 && PowerOfTen(12) == 1_0000_0000_0000
    ensures PowerOfTen(20) == 1_0000_0000_0000_0000_0000
  {
  }

  // ------------------------------------------------------------------------
  // Tax
  // ------------------------------------------------------------------------

  lemma DivisorOf(r: int)
    requires r > 0
    ensures Plus(Div(Decimal(r, 2), Decimal(100, 0)), Decimal(1, 0)) == Decimal(100_0000 * (1_0000 + r), 10)
  {
    Powers();
    RoundExact(r * 100_0000, 1_0000);
  }

  lemma QuotientOf(p: int, d: int)
    requires d > 0
    ensures Div(Decimal(p, 2), Decimal(100_0000 * d, 10)) ==
            Decimal(RoundHalfUp(p * 1_0000 * 1_0000_0000, d), 10)
  {
    Powers();
    RoundCancel(p * 1_0000 * 1_0000_0000, d, 1_0000_0000);
  }

  /** The two roundings of the base: the quotient to ten decimals, then to cents.  The tax is what is left. */
  lemma BreakdownOf(p: int, r: int)
    requires r > 0
    ensures ComputeTaxBreakdown(Cents(p), Cents(r)) == TaxBreakdown(Decimal(Base(p, r), 2), Decimal(p - Base(p, r), 2))
    ensures Base(p, r) == RoundHalfUp(RoundHalfUp(p * 1_0000 * 1_0000_0000, 1_0000 + r), 1_0000_0000)
  {
    Powers();
    DivisorOf(r);
    QuotientOf(p, 1_0000 + r);
  }

  lemma NoTaxOf(p: int, r: int)
    requires r <= 0
    ensures ComputeTaxBreakdown(Cents(p), Cents(r)) == TaxBreakdown(Decimal(p, 2), Decimal(0, 2))
  {
    Powers();
  }

  /**
   Rounding the quotient to ten decimals before rounding it to cents changes nothing:
   the base is the exact quotient rounded once, for every rate below 999900 %.
   */
  lemma BaseRoundsOnce(p: int, r: int)
    requires 0 < r <= 9999_0000
    ensures Base(p, r) == RoundHalfUp(p * 1_0000, 1_0000 + r)
  {
    BreakdownOf(p, r);
    SmallDenominator(p * 1_0000, 1_0000 + r, 5000_0000);
  }

  /** Base and tax always add up to the price, to the cent, whatever the price and the rate. */
  lemma BaseAndTaxMakeThePrice(p: int, r: int)
    ensures Base(p, r) + Tax(p, r) == p
    ensures ComputeTaxBreakdown(Cents(p), Cents(r)).taxableBase.scale == 2
    ensures ComputeTaxBreakdown(Cents(p), Cents(r)).taxAmount.scale == 2
  {
    if r > 0 { BreakdownOf(p, r); } else { NoTaxOf(p, r); }
  }

  /** Neither part is negative nor larger than the price. */
  lemma BaseAndTaxAreParts(p: int, r: int)
    requires p >= 0 && r <= 9999_0000
    ensures 0 <= Base(p, r) <= p && 0 <= Tax(p, r) <= p
  {
    BaseAndTaxMakeThePrice(p, r);
    if r > 0 {
      BaseRoundsOnce(p, r);
      RoundNonNegative(p * 1_0000, 1_0000 + r);
      RoundAntitone(p * 1_0000, 1_0000, 1_0000 + r);
      RoundExact(p, 1_0000);
    } else {
      NoTaxOf(p, r);
    }
  }

  /** A higher price lowers neither its base nor its tax. */
  lemma DearerIsNotTaxedLess(p: int, p': int, r: int)
    requires 0 <= p <= p' && r <= 9999_0000
    ensures Base(p, r) <= Base(p', r) && Tax(p, r) <= Tax(p', r)
  {
    BaseAndTaxMakeThePrice(p, r);
    BaseAndTaxMakeThePrice(p', r);
    if r > 0 {
      var d := 1_0000 + r;
      BaseRoundsOnce(p, r);
      BaseRoundsOnce(p', r);
      RoundMonotone(p * 1_0000, p' * 1_0000, d);
      // The base grows by at most as much as the price does.
      RoundShift(p * 1_0000, p' - p, d);
      MulOrder(1_0000, d, p' - p);
      RoundMonotone(p' * 1_0000, p * 1_0000 + (p' - p) * d, d);
    } else {
      NoTaxOf(p, r);
      NoTaxOf(p', r);
    }
  }

  /** A refund is split as the sale it undoes. */
  lemma RefundsMirrorSales(p: int, r: int)
    ensures Base(-p, r) == -Base(p, r) && Tax(-p, r) == -Tax(p, r)
  {
    BaseAndTaxMakeThePrice(p, r);
    BaseAndTaxMakeThePrice(-p, r);
    if r > 0 {
      BreakdownOf(p, r);
      BreakdownOf(-p, r);
      RoundOdd(p * 1_0000 * 1_0000_0000, 1_0000 + r);
      RoundOdd(RoundHalfUp(p * 1_0000 * 1_0000_0000, 1_0000 + r), 1_0000_0000);
    } else {
      NoTaxOf(p, r);
      NoTaxOf(-p, r);
    }
  }

  /** A higher rate does not lower the tax. */
  lemma HigherRateTaxesNoLess(p: int, r: int, r': int)
    requires p >= 0 && r <= r' <= 9999_0000
    ensures Tax(p, r) <= Tax(p, r')
  {
    BaseAndTaxMakeThePrice(p, r);
    BaseAndTaxMakeThePrice(p, r');
    BaseAndTaxAreParts(p, r');
    if r > 0 {
      BaseRoundsOnce(p, r);
      BaseRoundsOnce(p, r');
      RoundAntitone(p * 1_0000, 1_0000 + r, 1_0000 + r');
    } else {
      NoTaxOf(p, r);
    }
  }

  /** A sale line: its price in cents and its own rate. */
  datatype Line = Line(price: int, rate: int)

  function SumPrices(lines: seq<Line>): int {
    if lines == [] then 0 else lines[0].price + SumPrices(lines[1..])
  }

  function SumBases(lines: seq<Line>): int {
    if lines == [] then 0 else Base(lines[0].price, lines[0].rate) + SumBases(lines[1..])
  }

  function SumTaxes(lines: seq<Line>): int {
    if lines == [] then 0 else Tax(lines[0].price, lines[0].rate) + SumTaxes(lines[1..])
  }

  /** Splitting line by line never drifts: the bases and taxes of a ticket add up to its prices. */
  lemma {:induction false} SplitsDoNotDrift(lines: seq<Line>)
    ensures SumBases(lines) + SumTaxes(lines) == SumPrices(lines)
  {
    if lines != [] {
      BaseAndTaxMakeThePrice(lines[0].price, lines[0].rate);
      SplitsDoNotDrift(lines[1..]);
    }
  }

  // ------------------------------------------------------------------------
  // Profit and margin
  // ------------------------------------------------------------------------

  lemma ProfitIsExact(p: int, c: int)
    ensures CalculateProfit(Cents(p), Cents(c)) == Decimal(p - c, 2)
  {
    Powers();
  }

  /** The margin on a price of `p` cents that cost `c`, in ten-thousandths of a percent. */
  function Margin(p: int, c: int): int {
    CalculateMargin(Cents(p), Cents(c)).units
  }

  lemma MarginOf(p: int, c: int)
    requires p > 0
    ensures CalculateMargin(Cents(p), Cents(c)) == Decimal(Margin(p, c), 4)
    ensures Margin(p, c) == RoundHalfUp(RoundHalfUp((p - c) * 100_0000 * 1_0000, p), 1_0000)
  {
    Powers();
    RoundCancel((p - c) * 100_0000 * 1_0000, p, 100);
    RoundCancel(RoundHalfUp((p - c) * 100_0000 * 1_0000, p), 1_0000, 100);
  }

  /** Price and cost both negative give the margin of their amounts. */
  lemma NegativePrice(p: int, c: int)
    ensures Margin(-p, -c) == Margin(p, c)
  {
    Powers();
    assert -((p - c) * 100_0000 * 1_0000) == (c - p) * 100_0000 * 1_0000;
  }

  /** Without a price, or with a price of zero, there is no margin; without a cost it is 100 %, whatever the price. */
  lemma MarginWithout(price: Option<Decimal>, cost: Option<Decimal>)
    ensures price.None? || price.value.units == 0 ==> CalculateMargin(price, cost) == Decimal(0, 4)
    ensures price.Some? && price.value.units != 0 && cost.None? ==> CalculateMargin(price, cost) == Decimal(100_0000, 4)
  {
    Powers();
    if price.Some? && price.value.units != 0 && cost.None? {
      var q := price.value;
      assert Rescale(q, q.scale) == q.units;
      assert Minus(q, Decimal(0, 0)) == q;
      RatioOfItself(q);
      RoundExact(100_0000, 100_0000_0000 / 1_0000);
    }
  }

  lemma RatioOfItself(q: Decimal)
    requires q.units != 0
    ensures Div(q, q) == Decimal(100_0000_0000, 10)
  {
    var p := PowerOfTen(q.scale);
    PowerSum(DP, q.scale);
    Powers();
    WholeRatio(Abs(q.units), p);
  }

  lemma WholeRatio(u: nat, p: nat)
    requires u > 0 && p > 0
    ensures u * p > 0 && RoundHalfUp(u * (100_0000_0000 * p), u * p) == 100_0000_0000
  {
    assert u * (100_0000_0000 * p) == 100_0000_0000 * (u * p);
    RoundExact(100_0000_0000, u * p);
  }

  lemma {:induction false} PowerSum(a: nat, b: nat)
    ensures PowerOfTen(a + b) == PowerOfTen(a) * PowerOfTen(b)
  {
    if b > 0 {
      PowerSum(a, b - 1);
      assert PowerOfTen(a) * (10 * PowerOfTen(b - 1)) == 10 * (PowerOfTen(a) * PowerOfTen(b - 1));
    }
  }

  /** A missing price or cost counts as zero in the profit... */
  lemma ProfitWithout(p: int)
    ensures CalculateProfit(None, Cents(p)) == Decimal(-p, 2) && CalculateProfit(Cents(p), None) == Decimal(p, 2)
    ensures CalculateProfit(None, None) == Decimal(0, 2)
  {
    Powers();
  }

  /** ...and a missing price or rate bears no tax. */
  lemma TaxWithout(p: int)
    ensures ComputeTaxBreakdown(Cents(p), None) == TaxBreakdown(Decimal(p, 2), Decimal(0, 2))
    ensures ComputeTaxBreakdown(None, Cents(p)) == TaxBreakdown(Decimal(0, 2), Decimal(0, 2))
  {
    Powers();
    if p > 0 {
      var divisor := Plus(Div(Decimal(p, 2), Decimal(100, 0)), Decimal(1, 0));
      DivisorPositive(Decimal(p, 2));
      assert Div(Decimal(0, 0), divisor) == Decimal(0, 10) by { RoundExact(0, divisor.units); }
      RoundExact(0, 1_0000_0000);
    }
  }

  /**
   The margin is the exact one rounded once, unless the exact one falls short of a tie of the
   fourth decimal by at most half a unit of the eighth.
   */
  lemma MarginRoundsOnceIff(p: int, c: int)
    requires p > 0
    ensures Margin(p, c) == RoundHalfUp((p - c) * 100_0000, p) <==>
            !(9999 * p <= 2 * ((Abs(p - c) * 100_0000_0000) % (1_0000 * p)) < 1_0000 * p)
  {
    MarginOf(p, c);
    assert Abs((p - c) * 100_0000) * 1_0000 == Abs(p - c) * 100_0000_0000;
    DoubleRoundingIff((p - c) * 100_0000, p, 5000);
  }

  /** Up to a price of 100.00 there are no false ties. */
  lemma SmallPriceMarginRoundsOnce(p: int, c: int)
    requires 0 < p <= 1_0000
    ensures Margin(p, c) == RoundHalfUp((p - c) * 100_0000, p)
  {
    MarginOf(p, c);
    SmallDenominator((p - c) * 100_0000, p, 5000);
  }

  /** At 100.01 there is one: a cost of 0.50 gives 99.5001 where the exact margin rounds to 99.5000. */
  lemma FirstFalseTie()
    ensures Margin(1_0001, 50) == 99_5001 && RoundHalfUp((1_0001 - 50) * 100_0000, 1_0001) == 99_5000
  {
    MarginOf(1_0001, 50);
  }

  /** The margin is within 0.00005 + 0.000000005 of the exact one. */
  lemma MarginError(p: int, c: int)
    requires p > 0
    ensures -1_0001 * p <= 2 * (Margin(p, c) * 1_0000 * p - (p - c) * 100_0000 * 1_0000) <= 1_0001 * p
  {
    MarginOf(p, c);
    var n := (p - c) * 100_0000 * 1_0000;
    var q := RoundHalfUp(n, p);
    RoundIsNearest(n, p);
    RoundIsNearest(q, 1_0000);
    ErrorsAdd(n, p, 1_0000, q, Margin(p, c));
  }

  /** A higher cost does not raise the margin. */
  lemma DearerCostEarnsNoMore(p: int, c: int, c': int)
    requires p > 0 && c <= c'
    ensures Margin(p, c') <= Margin(p, c)
  {
    MarginOf(p, c);
    MarginOf(p, c');
    var n, n' := (p - c) * 100_0000 * 1_0000, (p - c') * 100_0000 * 1_0000;
    RoundMonotone(n', n, p);
    RoundMonotone(RoundHalfUp(n', p), RoundHalfUp(n, p), 1_0000);
  }
}
