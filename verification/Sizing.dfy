/** From a budget to a number of contracts, and the check an order's size passes before it is placed. */
module Sizing {
  import opened Wrappers
  import opened Decimals
  import opened Risk
  import opened Notional

  /**
   * A contract's metadata; `None` stands for a field that is blank or unreadable. The multiplier is
   * the quanto multiplier.
   */
  datatype Meta = Meta(
    multiplier: Option<real>, sizeMin: Option<real>, sizeMax: Option<real>, sizeStep: Option<real>, decimalSize: bool)

  /** parseOptionalPositiveDecimal: a limit counts only when positive. */
  predicate Limits(limit: Option<real>) {
    limit.Some? && limit.value > 0.0
  }

  // ---------------------------------------------------------------- the budget

  datatype Mode = Unset | Percent | Fixed | Custom | Unknown

  /** The notional a signal asks for, in quote currency; None when its sizing is refused. */
  function UsdtNotional(mode: Mode, value: Option<Size>, available: real, divisor: int): Option<real> {
    match mode
    case Unset => Some(Div16(available, (if divisor <= 0 then 10 else divisor) as real))
    case Percent =>
      if value.None? then None else
        var percent := SizeOrZero(value.value);
        if percent < 0.0 || percent > 1.0 then None else Some(available * percent)
    case Fixed =>
      if value.None? || SizeOrZero(value.value) > available then None else Some(SizeOrZero(value.value))
    case Custom => None
    case Unknown => None
  }

  lemma ShareOfAvailable(available: real, percent: real)
    requires available >= 0.0 && 0.0 <= percent <= 1.0
    ensures available * percent <= available
  {
  }

  lemma DivideByTwoOrMore(a: real, d: real)
    requires a >= 0.0 && d >= 2.0
    ensures 0.0 <= a / d && a / d + a / d <= a
  {
    assert (a / d) * d == a;
    assert (a / d) * (d - 2.0) >= 0.0;
  }

  lemma RoundAtMostDouble(x: real)
    requires x >= 0.0
    ensures Round16(x) <= x + x
  {
    RoundError(x);
    if x < HALF_ULP {
      assert x * SCALE < 0.5;
      assert (x * SCALE + 0.5).Floor == 0;
    }
  }

  lemma ShareWithinBalance(available: real, divisor: int)
    requires available >= 0.0 && divisor != 1
    ensures Div16(available, (if divisor <= 0 then 10 else divisor) as real) <= available
  {
    var d := (if divisor <= 0 then 10 else divisor) as real;
    DivideByTwoOrMore(available, d);
    RoundAtMostDouble(available / d);
  }

  /** A Fixed budget is the amount asked for, refused exactly if there is none or it exceeds the balance. */
  lemma FixedBudget(value: Option<Size>, available: real, divisor: int)
    ensures var n := UsdtNotional(Fixed, value, available, divisor);
      && (n.Some? <==> value.Some? && SizeOrZero(value.value) <= available)
      && (value.Some? && value.value.Exact? && n.Some? ==> n.value == value.value.value)
  {
  }

  /** The budget of a Percent signal. */
  function Share(percent: real, available: real, divisor: int): Option<real> {
    UsdtNotional(Percent, Some(Exact(percent)), available, divisor)
  }

  /** It exists exactly for percentages from 0 to 1, and is nothing at 0 and the whole balance at 1. */
  lemma PercentBudget(percent: real, available: real, divisor: int)
    ensures Share(percent, available, divisor).Some? <==> 0.0 <= percent <= 1.0
    ensures Share(0.0, available, divisor).Some? && Share(0.0, available, divisor).value == 0.0
    ensures Share(1.0, available, divisor).Some? && Share(1.0, available, divisor).value == available
    ensures UsdtNotional(Percent, None, available, divisor).None?
  {
  }

  /** In between it is proportional: the budgets of two percentages add up to the budget of their sum. */
  lemma PercentProportional(p: real, q: real, available: real, divisor: int)
    requires 0.0 <= p && 0.0 <= q && p + q <= 1.0
    ensures Share(p, available, divisor).Some? && Share(q, available, divisor).Some? && Share(p + q, available, divisor).Some?
    ensures Share(p + q, available, divisor).value == Share(p, available, divisor).value + Share(q, available, divisor).value
  {
    Distribute(p, q, available);
  }

  /** Without a mode the budget is the balance divided by the divisor, ten if none is set, to 16 places. */
  lemma DefaultBudget(value: Option<Size>, available: real, divisor: int)
    ensures var n, d := UsdtNotional(Unset, value, available, divisor), if divisor <= 0 then 10.0 else divisor as real;
      n.Some? && available / d - HALF_ULP <= n.value <= available / d + HALF_ULP
    ensures UsdtNotional(Custom, value, available, divisor).None? && UsdtNotional(Unknown, value, available, divisor).None?
  {
    RoundError(available / if divisor <= 0 then 10.0 else divisor as real);
  }

  lemma WholeBalance(available: real)
    requires available >= 0.0
    ensures Div16(available, 1.0) > available <==> RoundsUp(available)
  {
    assert available / 1.0 == available;
    RoundsUpIff(available);
  }

  /**
   * A budget exceeds the available balance if and only if the default divisor is one and the
   * balance's digits behind the 16th place round up.
   */
  lemma BudgetWithinBalance(mode: Mode, value: Option<Size>, available: real, divisor: int)
    requires available >= 0.0 && UsdtNotional(mode, value, available, divisor).Some?
    ensures UsdtNotional(mode, value, available, divisor).value > available <==>
            mode.Unset? && divisor == 1 && RoundsUp(available)
  {
    match mode
    case Unset => if divisor == 1 { WholeBalance(available); } else { ShareWithinBalance(available, divisor); }
    case Percent => ShareOfAvailable(available, SizeOrZero(value.value));
    case _ =>
  }

  /** Such a balance: six units of the 17th place become one of the 16th. */
  lemma BudgetExceedsBalance()
    ensures UsdtNotional(Unset, None, 0.00000000000000006, 1) == Some(0.0000000000000001)
  {
    var x := 0.00000000000000006;
    assert x / 1.0 == x;
    assert x * SCALE + 0.5 == 1.1;
    assert (1.1 as real).Floor == 1;
  }

  // ---------------------------------------------------------------- contracts

  /** The contracts a budget buys, before the limits. */
  function Bought(meta: Meta, denom: real, notional: real): real
    requires denom > 0.0
  {
    if meta.decimalSize then Div16(notional, denom) else Floor(Div16(notional, denom))
  }

  /** The limits: the minimum lifts a positive budget, then the maximum caps it. */
  function Clamped(meta: Meta, notional: real, bought: real): real {
    var lifted := if Limits(meta.sizeMin) && bought < meta.sizeMin.value && notional > 0.0 then meta.sizeMin.value else bought;
    if Limits(meta.sizeMax) && lifted > meta.sizeMax.value then meta.sizeMax.value else lifted
  }

  /** The size for a budget: zero for a zero one, None when it cannot be computed or is not positive. */
  function Contracts(meta: Option<Meta>, ticker: Option<Ticker>, notional: real): Option<real> {
    if notional == 0.0 then Some(0.0)
    else if meta.None? || !Limits(meta.value.multiplier) || ticker.None? then None
    else match TickerPrice(ticker.value)
      case None => None
      case Some(price) =>
        var denom := UnitNotional(price, meta.value.multiplier.value);
        if denom <= 0.0 then None else
          var size := Clamped(meta.value, notional, Bought(meta.value, denom, notional));
          if size > 0.0 then Some(size) else None
  }

  method NotionalUsdtToContracts(meta: Option<Meta>, ticker: Option<Ticker>, notional: real) returns (size: Option<real>)
    ensures size == Contracts(meta, ticker, notional)
  {
    if notional == 0.0 {
      return Some(0.0);
    }
    if meta.None? || meta.value.multiplier.None? || meta.value.multiplier.value <= 0.0 || ticker.None? {
      return None;
    }
    var price := TickerMarkPrice(ticker.value);
    if price.None? {
      return None;
    }
    var denom := UnitNotional(price.value, meta.value.multiplier.value);
    if denom <= 0.0 {
      return None;
    }
    var raw := Div16(notional, denom);
    if !meta.value.decimalSize {
      raw := Floor(raw);
    }
    if Limits(meta.value.sizeMin) && raw < meta.value.sizeMin.value {
      if notional > 0.0 {
        raw := meta.value.sizeMin.value;
      }
    }
    if Limits(meta.value.sizeMax) && raw > meta.value.sizeMax.value {
      raw := meta.value.sizeMax.value;
    }
    if raw <= 0.0 {
      return None;
    }
    size := Some(raw);
  }

  lemma QuotientSign(a: real, b: real)
    requires b > 0.0 && a <= 0.0
    ensures a / b <= 0.0
  {
  }

  lemma BoughtPositive(meta: Meta, denom: real, notional: real)
    requires denom > 0.0 && Bought(meta, denom, notional) > 0.0
    ensures notional > 0.0
  {
    RoundPositive(notional / denom);
    if notional <= 0.0 {
      QuotientSign(notional, denom);
    }
  }

  /** A size is within its contract's positive limits. */
  predicate WithinLimits(meta: Meta, size: real) {
    (Limits(meta.sizeMin) ==> meta.sizeMin.value <= size) && (Limits(meta.sizeMax) ==> size <= meta.sizeMax.value)
  }

  predicate LimitsAgree(meta: Meta) {
    Limits(meta.sizeMin) && Limits(meta.sizeMax) ==> meta.sizeMin.value <= meta.sizeMax.value
  }

  lemma ClampedWithin(meta: Meta, notional: real, bought: real)
    requires LimitsAgree(meta) && notional > 0.0
    ensures WithinLimits(meta, Clamped(meta, notional, bought))
    ensures WithinLimits(meta, bought) ==> Clamped(meta, notional, bought) == bought
  {
  }

  /** The maximum has the last word: no size is above it, even where the minimum is. */
  lemma MaximumWins(meta: Meta, notional: real, bought: real)
    requires Limits(meta.sizeMax)
    ensures Clamped(meta, notional, bought) <= meta.sizeMax.value
    ensures bought >= meta.sizeMax.value ==> Clamped(meta, notional, bought) == meta.sizeMax.value
  {
  }

  /** A budget of which too few or too many contracts come is filled up to the minimum or cut to the maximum. */
  lemma ClampedExactly(meta: Meta, notional: real, bought: real)
    requires LimitsAgree(meta) && notional > 0.0
    ensures var size := Clamped(meta, notional, bought);
      && (Limits(meta.sizeMin) && bought < meta.sizeMin.value ==> size == meta.sizeMin.value)
      && (Limits(meta.sizeMax) && bought > meta.sizeMax.value ==> size == meta.sizeMax.value)
  {
  }

  /** The price of one contract when a budget is turned into contracts. */
  function Denominator(meta: Meta, ticker: Ticker): Option<real> {
    if !Limits(meta.multiplier) || TickerPrice(ticker).None? then None
    else Some(UnitNotional(TickerPrice(ticker).value, meta.multiplier.value))
  }

  /** A computed size comes from a positive budget, a known price, and the limits. */
  lemma ContractsShape(meta: Meta, ticker: Ticker, notional: real)
    requires notional != 0.0 && Contracts(Some(meta), Some(ticker), notional).Some?
    ensures notional > 0.0
    ensures var d := Denominator(meta, ticker);
      d.Some? && d.value > 0.0
      && Contracts(Some(meta), Some(ticker), notional).value == Clamped(meta, notional, Bought(meta, d.value, notional))
  {
    var denom := Denominator(meta, ticker).value;
    if Bought(meta, denom, notional) > 0.0 {
      BoughtPositive(meta, denom, notional);
    }
  }

  /**
   * The budget bound. A computed size is positive and within the limits; where no limit applies, an
   * integer contract's size costs at most the budget (up to half a unit of the division's last place)
   * and one contract more would cost more than it.
   */
  lemma BudgetBound(meta: Meta, ticker: Ticker, notional: real)
    requires notional != 0.0 && Contracts(Some(meta), Some(ticker), notional).Some? && LimitsAgree(meta)
    ensures var size, d := Contracts(Some(meta), Some(ticker), notional).value, Denominator(meta, ticker);
      && size > 0.0 && WithinLimits(meta, size) && d.Some? && d.value > 0.0
      && (!meta.decimalSize && WithinLimits(meta, Bought(meta, d.value, notional)) ==>
            size * d.value <= notional + HALF_ULP * d.value && notional < (size + 1.0) * d.value)
  {
    ContractsShape(meta, ticker, notional);
    var denom := Denominator(meta, ticker).value;
    ClampedWithin(meta, notional, Bought(meta, denom, notional));
    AllowedIsLargest(notional, 0.0, denom);
  }

  lemma BandTimes(q: real, r: real, h: real, d: real)
    requires q - h <= r <= q + h && d > 0.0
    ensures q * d - h * d <= r * d <= q * d + h * d
  {
    MulMonotone(q - h, r, d);
    MulMonotone(r, q + h, d);
    assert (q - h) * d == q * d - h * d;
    assert (q + h) * d == q * d + h * d;
  }

  /** The cost of a rounded quotient `r`, for `q` the quotient itself. */
  lemma RoundedCost(notional: real, d: real, q: real, r: real, h: real)
    requires d > 0.0 && q * d == notional && q - h <= r <= q + h
    ensures notional - h * d <= r * d <= notional + h * d
  {
    BandTimes(q, r, h, d);
  }

  lemma BoughtCost(meta: Meta, denom: real, notional: real)
    requires denom > 0.0 && meta.decimalSize
    ensures notional - HALF_ULP * denom <= Bought(meta, denom, notional) * denom <= notional + HALF_ULP * denom
  {
    var q := notional / denom;
    DivMul(notional, denom);
    RoundError(q);
    RoundedCost(notional, denom, q, Round16(q), HALF_ULP);
  }

  /** The size of a contract traded in fractions costs the budget, up to the rounding, where no limit applies. */
  lemma FractionalBudget(meta: Meta, ticker: Ticker, notional: real)
    requires notional != 0.0 && Contracts(Some(meta), Some(ticker), notional).Some? && LimitsAgree(meta) && meta.decimalSize
    ensures var size, d := Contracts(Some(meta), Some(ticker), notional).value, Denominator(meta, ticker);
      && d.Some? && d.value > 0.0
      && (WithinLimits(meta, Bought(meta, d.value, notional)) ==>
            notional - HALF_ULP * d.value <= size * d.value <= notional + HALF_ULP * d.value)
  {
    ContractsShape(meta, ticker, notional);
    var denom := Denominator(meta, ticker).value;
    ClampedWithin(meta, notional, Bought(meta, denom, notional));
    BoughtCost(meta, denom, notional);
  }

  // ---------------------------------------------------------------- formatting and the check before placing

  function FormatOrderSize(size: real, meta: Option<Meta>): real {
    if meta.Some? && meta.value.decimalSize then size else Truncate(size)
  }

  /** The remainder of a truncated division. */
  function Mod(a: real, b: real): real
    requires b != 0.0
  {
    a - b * Truncate(a / b)
  }

  predicate ValidOrderSize(meta: Meta, size: Size) {
    && size.Exact? && size.value > 0.0
    && (!meta.decimalSize ==> size.value == Truncate(size.value))
    && WithinLimits(meta, size.value)
    && (Limits(meta.sizeStep) ==> Mod(size.value, meta.sizeStep.value) == 0.0)
  }

  lemma TruncateWhole(x: real)
    requires x > 0.0
    ensures Truncate(Truncate(x)) == Truncate(x) && Truncate(x) <= x < Truncate(x) + 1.0
  {
  }

  lemma WholeBelow(m: real, x: real)
    requires m == Floor(m) && 1.0 <= m <= x
    ensures m <= Truncate(x)
  {
    FloorMonotone(m, x);
  }

  /** The remainder test of the size step. */
  predicate OnStep(meta: Meta, size: real) {
    Limits(meta.sizeStep) ==> Mod(size, meta.sizeStep.value) == 0.0
  }

  /** A truncated division leaves no remainder exactly if it was into whole parts. */
  lemma ModZeroIff(a: real, b: real)
    requires a > 0.0 && b > 0.0
    ensures Mod(a, b) == 0.0 <==> exists n: int {:trigger Multiple(b, n)} :: a == Multiple(b, n)
  {
    DivMul(a, b);
    if Mod(a, b) == 0.0 {
      assert Truncate(a / b) == (a / b).Floor as real;
      assert a == Multiple(b, (a / b).Floor);
    }
    if n: int {:trigger Multiple(b, n)} :| a == Multiple(b, n) {
      QuotientOf(n as real, b, a);
      assert (n as real).Floor == n;
    }
  }

  function Multiple(b: real, n: int): real {
    b * n as real
  }

  lemma QuotientOf(n: real, b: real, a: real)
    requires b > 0.0 && a == b * n
    ensures a / b == n
  {
  }

  /**
   * The sizes that may be placed: positive, whole for an integer contract, no smaller than a positive
   * minimum, no larger than a positive maximum, and a whole number of positive steps.
   */
  lemma PlaceableSizes(meta: Meta, z: real)
    ensures ValidOrderSize(meta, Exact(z)) <==>
      && z > 0.0 && (meta.decimalSize || exists n: int {:trigger Multiple(1.0, n)} :: z == Multiple(1.0, n))
      && (meta.sizeMin.Some? && meta.sizeMin.value > 0.0 ==> z >= meta.sizeMin.value)
      && (meta.sizeMax.Some? && meta.sizeMax.value > 0.0 ==> z <= meta.sizeMax.value)
      && (meta.sizeStep.Some? && meta.sizeStep.value > 0.0 ==>
            exists n: int {:trigger Multiple(meta.sizeStep.value, n)} :: z == Multiple(meta.sizeStep.value, n))
    ensures !ValidOrderSize(meta, Malformed)
  {
    if z > 0.0 {
      WholeIff(z);
      if Limits(meta.sizeStep) { ModZeroIff(z, meta.sizeStep.value); }
    }
  }

  lemma WholeIff(z: real)
    requires z > 0.0
    ensures z == Truncate(z) <==> exists n: int {:trigger Multiple(1.0, n)} :: z == Multiple(1.0, n)
  {
    if z == Truncate(z) {
      assert z == Multiple(1.0, z.Floor);
    }
    if n: int {:trigger Multiple(1.0, n)} :| z == Multiple(1.0, n) {
      assert (n as real).Floor == n;
    }
  }

  /** Cutting the fraction off for an integer contract leaves a positive size not below the minimum. */
  predicate SurvivesTruncation(meta: Meta, size: real) {
    !meta.decimalSize ==> Truncate(size) > 0.0 && (Limits(meta.sizeMin) ==> meta.sizeMin.value <= Truncate(size))
  }

  /**
   * For every contract: the formatted size of a budget passes the size check exactly when the limits
   * agree, truncation leaves enough of it and what is left is a multiple of the step.
   */
  lemma FormattedSizeIsValidIff(meta: Meta, ticker: Ticker, notional: real)
    requires notional != 0.0 && Contracts(Some(meta), Some(ticker), notional).Some?
    ensures var size := Contracts(Some(meta), Some(ticker), notional).value; var z := FormatOrderSize(size, Some(meta));
      ValidOrderSize(meta, Exact(z)) <==> LimitsAgree(meta) && SurvivesTruncation(meta, size) && OnStep(meta, z)
  {
    var size := Contracts(Some(meta), Some(ticker), notional).value;
    ContractsShape(meta, ticker, notional);
    if LimitsAgree(meta) {
      ClampedWithin(meta, notional, Bought(meta, Denominator(meta, ticker).value, notional));
    }
    TruncateWhole(size);
  }

  /** An integer contract whose minimum, if any, is whole and whose maximum, if any, is at least one. */
  predicate WholeLimits(meta: Meta) {
    !meta.decimalSize ==>
      && (Limits(meta.sizeMin) ==> meta.sizeMin.value == Floor(meta.sizeMin.value))
      && (Limits(meta.sizeMax) ==> meta.sizeMax.value >= 1.0)
  }

  lemma WholeAtLeastOne(m: real)
    requires m == Floor(m) && m > 0.0
    ensures m >= 1.0
  {
  }

  /** Under whole limits a computed size survives truncation. */
  lemma WholeLimitsSurvive(meta: Meta, notional: real, denom: real)
    requires LimitsAgree(meta) && WholeLimits(meta) && denom > 0.0 && notional > 0.0
    requires Clamped(meta, notional, Bought(meta, denom, notional)) > 0.0
    ensures SurvivesTruncation(meta, Clamped(meta, notional, Bought(meta, denom, notional)))
  {
    var size := Clamped(meta, notional, Bought(meta, denom, notional));
    ClampedWithin(meta, notional, Bought(meta, denom, notional));
    if !meta.decimalSize {
      if size == Floor(size) { WholeAtLeastOne(size); }
      WholeBelow(1.0, size);
      if Limits(meta.sizeMin) {
        WholeAtLeastOne(meta.sizeMin.value);
        WholeBelow(meta.sizeMin.value, size);
      }
    }
  }

  /** With limits that agree and are whole, the remainder by the step alone decides. */
  lemma StepDecides(meta: Meta, ticker: Ticker, notional: real)
    requires notional != 0.0 && Contracts(Some(meta), Some(ticker), notional).Some?
    requires LimitsAgree(meta) && WholeLimits(meta)
    ensures var z := FormatOrderSize(Contracts(Some(meta), Some(ticker), notional).value, Some(meta));
      ValidOrderSize(meta, Exact(z)) <==> OnStep(meta, z)
  {
    FormattedSizeIsValidIff(meta, ticker, notional);
    ContractsShape(meta, ticker, notional);
    WholeLimitsSurvive(meta, notional, Denominator(meta, ticker).value);
  }

  /** In particular no step, or a step of one contract, refuses no budget's size. */
  lemma FormattedSizeIsValid(meta: Meta, ticker: Ticker, notional: real)
    requires notional != 0.0 && Contracts(Some(meta), Some(ticker), notional).Some? && LimitsAgree(meta) && WholeLimits(meta)
    requires !Limits(meta.sizeStep) || (!meta.decimalSize && meta.sizeStep == Some(1.0))
    ensures ValidOrderSize(meta, Exact(FormatOrderSize(Contracts(Some(meta), Some(ticker), notional).value, Some(meta))))
  {
    var size := Contracts(Some(meta), Some(ticker), notional).value;
    StepDecides(meta, ticker, notional);
    TruncateWhole(size);
    assert Truncate(size) / 1.0 == Truncate(size);
  }

  /** With a coarser step the computed size can fail the check: a budget of 7 in steps of 5. */
  lemma CoarseStepFails()
    ensures var meta := Meta(Some(1.0), Some(5.0), None, Some(5.0), false);
      var ticker := Ticker(Quoted(1.0), Absent);
      && Contracts(Some(meta), Some(ticker), 7.0) == Some(7.0)
      && !ValidOrderSize(meta, Exact(FormatOrderSize(7.0, Some(meta))))
  {
    RoundWhole(7);
    assert Div16(7.0, 1.0) == 7.0;
    assert (7.0 / 5.0).Floor == 1;
  }
}
