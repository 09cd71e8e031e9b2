/** Evaluating an order again after a reduction. */
module Reductions {
  import opened Wrappers
  import opened Decimals
  import opened Risk
  import opened Notional
  import opened RiskContext

  /** The context of the same order in a smaller size, on the same snapshot. */
  predicate SmallerOrder(c: Context, d: Context) {
    && c.orderSize.Exact? && d.orderSize.Exact? && 0.0 < d.orderSize.value <= c.orderSize.value
    && d.opens == c.opens && d.openOrders == c.openOrders && d.positions == c.positions && d.ready == c.ready
    && d.available == c.available && d.increasing == c.increasing && d.equity == c.equity
    && d.dailyLoss == c.dailyLoss && d.drawdown == c.drawdown
    && (c.available ==> d.positionNotional == c.positionNotional && d.perUnit == c.perUnit && d.postLeverage <= c.postLeverage)
  }

  lemma ScreenSmaller(r: Rules, c: Context, d: Context)
    requires SmallerOrder(c, d) && Screen(r, c) == None
    ensures Screen(r, d) == None
  {
  }

  /** A position reduction is accepted as it is. */
  lemma PositionReductionIsAllowed(r: Rules, c: Context, d: Context)
    requires Evaluate(r, c).Reduce? && Evaluate(r, c).code == MaxPositionSize
    requires SmallerOrder(c, d) && d.orderSize == Exact(Evaluate(r, c).size)
    ensures Evaluate(r, d) == Allow
  {
    ScreenSmaller(r, c, d);
  }

  /** After an order-size reduction the order-size limit no longer applies. */
  lemma SizeReductionOnce(r: Rules, c: Context, d: Context)
    requires Evaluate(r, c).Reduce? && Evaluate(r, c).code == MaxOrderSize
    requires SmallerOrder(c, d) && d.orderSize == Exact(Evaluate(r, c).size)
    ensures Evaluate(r, d).Reduce? ==> Evaluate(r, d).code == MaxPositionSize && Evaluate(r, d).size < d.orderSize.value
  {
    ScreenSmaller(r, c, d);
  }

  // ---------------------------------------------------------------- contexts of smaller sizes

  lemma QuotientMonotone(a: real, b: real, e: real)
    requires 0.0 <= a <= b && e > 0.0
    ensures 0.0 <= a / e <= b / e
  {
    DivMul(a, e);
    DivMul(b, e);
    if a / e > b / e {
      MulStrict(b / e, a / e, e);
    }
  }

  lemma LeverageMonotone(a: real, b: real, equity: real)
    requires 0.0 <= a <= b
    ensures LeverageRatio(a, equity) <= LeverageRatio(b, equity)
  {
    if equity > 0.0 {
      QuotientMonotone(a, b, equity);
      RoundMonotone(a / equity, b / equity);
    }
  }

  lemma {:induction false} ExposureNonNegative(s: Snapshot, positions: seq<Position>)
    ensures Exposure(s, positions).Some? ==> Exposure(s, positions).value >= 0.0
  {
    if positions != [] {
      var p := positions[|positions| - 1];
      ExposureNonNegative(s, positions[..|positions| - 1]);
      NotionalNonNegative(s.quotes(p.contract), SizeOrZero(p.size), p.mark);
    }
  }

  /** The same market for two sizes: the order's notional grows with the size, the rest is the same. */
  predicate PricedAlike(p: Priced, qty: real, p': Priced, qty': real)
    requires qty > 0.0 && qty' > 0.0
  {
    && p'.held == p.held && p'.total == p.total && (p.order.Some? <==> p'.order.Some?)
    && (p.total.Some? ==> p.total.value >= 0.0)
    && (p.order.Some? ==> 0.0 <= p'.order.value <= p.order.value && Div16(p'.order.value, qty') == Div16(p.order.value, qty))
  }

  lemma UnitsOrdered(notional: real, qty: real, notional': real, qty': real, unit: real)
    requires 0.0 < qty' <= qty && unit > 0.0 && notional == qty * unit && notional' == qty' * unit
    ensures 0.0 <= notional' <= notional
  {
    MulMonotone(qty', qty, unit);
    ProductNonNegative(qty', unit);
  }

  lemma UnitsAlike(notional: real, qty: real, notional': real, qty': real, unit: real)
    requires qty > 0.0 && qty' > 0.0 && notional == qty * unit && notional' == qty' * unit
    ensures Div16(notional', qty') == Div16(notional, qty)
  {
    assert notional / qty == unit;
    assert notional' / qty' == unit;
  }

  lemma SmallerIsPricedAlike(s: Snapshot, contract: string, qty: real, qty': real)
    requires 0.0 < qty' <= qty
    ensures PricedAlike(PriceOrder(s, contract, qty), qty, PriceOrder(s, contract, qty'), qty')
  {
    var p, p', u := PriceOrder(s, contract, qty), PriceOrder(s, contract, qty'), OrderUnit(s, contract);
    ExposureNonNegative(s, s.positions);
    PriceIsUnits(s, contract, qty);
    PriceIsUnits(s, contract, qty');
    if u.Some? {
      UnitsOrdered(p.order.value, qty, p'.order.value, qty', u.value);
      UnitsAlike(p.order.value, qty, p'.order.value, qty', u.value);
    }
  }

  lemma FillSmaller(c: Context, p: Priced, qty: real, d: Context, p': Priced, qty': real)
    requires 0.0 < qty' <= qty && c.orderSize == Exact(qty) && !c.available && d == c.(orderSize := Exact(qty'))
    requires PricedAlike(p, qty, p', qty')
    ensures SmallerOrder(Fill(c, p, qty), Fill(d, p', qty'))
  {
    if p.order.Some? && p.total.Some? {
      LeverageMonotone(p.total.value + p'.order.value, p.total.value + p.order.value, c.equity);
    }
  }

  lemma BuildSmaller(s: Snapshot, needs: bool -> bool, dir: Direction, contract: string, qty: real, qty': real)
    requires 0.0 < qty' <= qty
    ensures SmallerOrder(Build(s, needs, dir, contract, Exact(qty)), Build(s, needs, dir, contract, Exact(qty')))
  {
    SmallerIsPricedAlike(s, contract, qty, qty');
    var inc := IsIncreasing(dir, Find(s.positions, contract));
    var c, d := Base(s, dir, Exact(qty)).(increasing := inc), Base(s, dir, Exact(qty')).(increasing := inc);
    FillSmaller(c, PriceOrder(s, contract, qty), qty, d, PriceOrder(s, contract, qty'), qty');
  }

  // ---------------------------------------------------------------- the result

  function VerdictOn(r: Rules, s: Snapshot, needs: bool -> bool, dir: Direction, contract: string, qty: real): Verdict {
    Evaluate(r, Build(s, needs, dir, contract, Exact(qty)))
  }

  /** On one snapshot, the size a position reduction gives is allowed. */
  lemma PositionReductionSettles(r: Rules, s: Snapshot, needs: bool -> bool, dir: Direction, contract: string, qty: real)
    requires r.maxOrderSize >= 0.0
    requires VerdictOn(r, s, needs, dir, contract, qty).Reduce? && VerdictOn(r, s, needs, dir, contract, qty).code == MaxPositionSize
    ensures var v := VerdictOn(r, s, needs, dir, contract, qty);
      0.0 < v.size < qty && VerdictOn(r, s, needs, dir, contract, v.size) == Allow
  {
    var c := Build(s, needs, dir, contract, Exact(qty));
    var v := Evaluate(r, c);
    VerdictShrinks(r, c);
    BuildSmaller(s, needs, dir, contract, qty, v.size);
    PositionReductionIsAllowed(r, c, Build(s, needs, dir, contract, Exact(v.size)));
  }

  lemma SizeReductionSettles(r: Rules, s: Snapshot, needs: bool -> bool, dir: Direction, contract: string, qty: real)
    requires r.maxOrderSize >= 0.0
    requires VerdictOn(r, s, needs, dir, contract, qty).Reduce? && VerdictOn(r, s, needs, dir, contract, qty).code == MaxOrderSize
    ensures var v := VerdictOn(r, s, needs, dir, contract, qty); var w := VerdictOn(r, s, needs, dir, contract, v.size);
      0.0 < v.size < qty && (w.Reduce? ==> w.code == MaxPositionSize)
  {
    var c := Build(s, needs, dir, contract, Exact(qty));
    var v := Evaluate(r, c);
    VerdictShrinks(r, c);
    BuildSmaller(s, needs, dir, contract, qty, v.size);
    SizeReductionOnce(r, c, Build(s, needs, dir, contract, Exact(v.size)));
  }

  /**
   * On one snapshot, evaluating an order, and again with a rebuilt context after each reduction,
   * reaches a verdict other than a reduction after at most two: a position reduction is allowed as it
   * is, and an order-size reduction is followed by at most one position reduction.
   */
  lemma AtMostTwoReductions(r: Rules, s: Snapshot, needs: bool -> bool, dir: Direction, contract: string, qty: real)
    requires r.maxOrderSize >= 0.0 && VerdictOn(r, s, needs, dir, contract, qty).Reduce?
    ensures var v1 := VerdictOn(r, s, needs, dir, contract, qty);
      && 0.0 < v1.size < qty
      && var v2 := VerdictOn(r, s, needs, dir, contract, v1.size);
         && (v1.code == MaxPositionSize ==> v2 == Allow)
         && (v2.Reduce? ==> v2.code == MaxPositionSize && 0.0 < v2.size < v1.size
                            && VerdictOn(r, s, needs, dir, contract, v2.size) == Allow)
  {
    var v1 := VerdictOn(r, s, needs, dir, contract, qty);
    if v1.code == MaxPositionSize {
      PositionReductionSettles(r, s, needs, dir, contract, qty);
    } else {
      SizeReductionSettles(r, s, needs, dir, contract, qty);
      if VerdictOn(r, s, needs, dir, contract, v1.size).Reduce? {
        PositionReductionSettles(r, s, needs, dir, contract, v1.size);
      }
    }
  }
}
