/** Fill arithmetic (backend/backtest/matching.py) and lot rounding
    (backend/backtest/precision.py). */
module Matching {
  import opened Common

  function ApplySlippage(num: Decimals, basePrice: real, side: Side, slippagePct: real): Result<real> {
    if basePrice <= 0.0 || slippagePct < 0.0 then Failure(ValueError)
    else if side.Buy? then Success(num.mul(basePrice, num.add(1.0, slippagePct)))
    else Success(num.mul(basePrice, num.Sub(1.0, slippagePct)))
  }

  function ComputeCommission(num: Decimals, notional: real, commissionPct: real, minCommission: real): Result<real> {
    if notional < 0.0 || commissionPct < 0.0 || minCommission < 0.0 then Failure(ValueError)
    else Success(Max(num.mul(notional, commissionPct), minCommission))
  }

  datatype RoundedQuantity = RoundedQuantity(quantity: real, fillable: bool)

  function RoundToLot(num: Decimals, desired: real, lotSize: real, minQuantity: real): Result<RoundedQuantity> {
    if lotSize <= 0.0 || minQuantity < 0.0 then Failure(ValueError)
    else if desired <= 0.0 then Success(RoundedQuantity(0.0, false))
    else
      var steps := num.div(desired, lotSize).Floor as real;
      var rounded := num.mul(steps, lotSize);
      if rounded <= 0.0 then Success(RoundedQuantity(0.0, false))
      else Success(RoundedQuantity(rounded, rounded >= minQuantity))
  }

  function Lots(n: int, lotSize: real): real {
    n as real * lotSize
  }

  /** A whole number of lots. */
  ghost predicate IsLotMultiple(x: real, lotSize: real) {
    exists n: int :: Lots(n, lotSize) == x
  }

  lemma AdverseFactor(basePrice: real, slippagePct: real)
    requires basePrice > 0.0 && slippagePct >= 0.0
    ensures basePrice * (1.0 - slippagePct) <= basePrice <= basePrice * (1.0 + slippagePct)
  {
    ScaleOrder(0.0, basePrice, slippagePct);
    assert basePrice * (1.0 + slippagePct) == basePrice + basePrice * slippagePct;
    assert basePrice * (1.0 - slippagePct) == basePrice - basePrice * slippagePct;
  }

  /** Slippage never favours the trader: buys pay at least the base price, sells get at most it. */
  lemma SlippageIsAdverse(num: Decimals, basePrice: real, side: Side, slippagePct: real)
    requires num.Exact() && ApplySlippage(num, basePrice, side, slippagePct).Success?
    ensures var p := ApplySlippage(num, basePrice, side, slippagePct).value;
            if side.Buy? then p >= basePrice else p <= basePrice
  {
    AdverseFactor(basePrice, slippagePct);
    assert num.add(1.0, slippagePct) == 1.0 + slippagePct && num.Sub(1.0, slippagePct) == 1.0 - slippagePct;
    assert num.mul(basePrice, 1.0 + slippagePct) == basePrice * (1.0 + slippagePct);
    assert num.mul(basePrice, 1.0 - slippagePct) == basePrice * (1.0 - slippagePct);
  }

  lemma Between(q: real, f: real, y: real, x: real)
    requires q * y == x && f <= q < f + 1.0 && y > 0.0
    ensures f * y <= x < f * y + y
  {
    ScaleOrder(f, q, y);
    var gap := f + 1.0 - q;
    PositiveProduct(gap, y);
    assert gap * y == f * y + y - x;
  }

  lemma PositiveProduct(a: real, b: real)
    requires a > 0.0 && b > 0.0
    ensures a * b > 0.0
  {
  }

  lemma ScaleOrder(a: real, b: real, c: real)
    requires a <= b && c >= 0.0
    ensures a * c <= b * c
  {
    assert (b - a) * c >= 0.0;
    assert (b - a) * c == b * c - a * c;
  }

  /** Exact rounding takes the whole lots in the desired quantity. */
  lemma ExactRounding(num: Decimals, desired: real, lotSize: real, minQuantity: real)
    requires num.Exact() && desired > 0.0 && lotSize > 0.0 && minQuantity >= 0.0
    ensures var lots := Lots((desired / lotSize).Floor, lotSize);
            RoundToLot(num, desired, lotSize, minQuantity)
            == Success(if lots <= 0.0 then RoundedQuantity(0.0, false) else RoundedQuantity(lots, lots >= minQuantity))
  {
    var q := num.div(desired, lotSize);
    assert q == desired / lotSize;
    var lots := num.mul(q.Floor as real, lotSize);
    assert lots == Lots(q.Floor, lotSize);
  }

  lemma Quotient(x: real, y: real)
    requires x > 0.0 && y > 0.0
    ensures x / y > 0.0 && x / y * y == x
  {
  }

  /** The whole lots in a positive quantity: none or more, and fewer than one lot short of it. */
  lemma WholeLots(desired: real, lotSize: real)
    requires desired > 0.0 && lotSize > 0.0
    ensures var lots := Lots((desired / lotSize).Floor, lotSize);
            0.0 <= lots <= desired < lots + lotSize
  {
    var q := desired / lotSize;
    var steps := q.Floor;
    Quotient(desired, lotSize);
    Between(q, steps as real, lotSize, desired);
    if steps >= 1 {
      PositiveProduct(steps as real, lotSize);
    }
  }

  /** Rounding floors to the greatest lot multiple not above the desired quantity, and a
      quantity is fillable exactly when that multiple is positive and reaches the minimum. */
  lemma RoundToLotIsFloor(num: Decimals, desired: real, lotSize: real, minQuantity: real)
    requires num.Exact() && desired > 0.0 && lotSize > 0.0 && minQuantity >= 0.0
    ensures RoundToLot(num, desired, lotSize, minQuantity).Success?
    ensures var r := RoundToLot(num, desired, lotSize, minQuantity).value;
            && IsLotMultiple(r.quantity, lotSize)
            && 0.0 <= r.quantity <= desired < r.quantity + lotSize
            && (r.fillable <==> r.quantity > 0.0 && r.quantity >= minQuantity)
  {
    ExactRounding(num, desired, lotSize, minQuantity);
    WholeLots(desired, lotSize);
    hide Decimals.Exact, RoundToLot, Lots;
    assert RoundToLot(num, desired, lotSize, minQuantity).value.quantity == Lots((desired / lotSize).Floor, lotSize);
  }
}
