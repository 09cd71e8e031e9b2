/** The risk rules: the verdict chain for one order, and a strategy's rules over the global ones. */
module Risk {
  import opened Wrappers
  import opened Decimals

  /** A size string: malformed, or an exact number. */
  datatype Size = Malformed | Exact(value: real)

  datatype Direction = Long | Short | Flat

  datatype Position = Position(contract: string, long: bool, size: Size, mark: Option<real>)

  datatype Rules = Rules(
    enable: bool, maxOrderSize: real, maxOpenOrders: int, maxPositions: int, maxPositionSize: real,
    maxDailyLoss: real, maxDrawdown: real, maxLeverage: int, positionLock: bool)

  datatype Overrides = Overrides(
    maxOrderSize: Option<real>, maxOpenOrders: Option<int>, maxPositions: Option<int>, maxPositionSize: Option<real>,
    maxDailyLoss: Option<real>, maxDrawdown: Option<real>, maxLeverage: Option<int>, positionLock: Option<bool>)

  predicate HasEffectiveOverrides(o: Overrides) {
    o.maxOrderSize.Some? || o.maxOpenOrders.Some? || o.maxPositions.Some? || o.maxPositionSize.Some? ||
    o.maxDailyLoss.Some? || o.maxDrawdown.Some? || o.maxLeverage.Some? || o.positionLock.Some?
  }

  function Or<T>(override: Option<T>, inherited: T): T {
    if override.Some? then override.value else inherited
  }

  function MergeRules(global: Rules, o: Overrides): Rules {
    Rules(global.enable, Or(o.maxOrderSize, global.maxOrderSize), Or(o.maxOpenOrders, global.maxOpenOrders),
          Or(o.maxPositions, global.maxPositions), Or(o.maxPositionSize, global.maxPositionSize),
          Or(o.maxDailyLoss, global.maxDailyLoss), Or(o.maxDrawdown, global.maxDrawdown),
          Or(o.maxLeverage, global.maxLeverage), Or(o.positionLock, global.positionLock))
  }

  /** A strategy without effective overrides is judged by the global rules; enabling cannot be overridden. */
  lemma MergeOfNothing(global: Rules, o: Overrides)
    ensures !HasEffectiveOverrides(o) ==> MergeRules(global, o) == global
    ensures MergeRules(global, o).enable == global.enable
    ensures MergeRules(MergeRules(global, o), o) == MergeRules(global, o)
  {
  }

  const NO_OVERRIDES := Overrides(None, None, None, None, None, None, None, None)

  /** Overrides are effective exactly if they set something, and each one set replaces its own limit and no other. */
  lemma EachOverrideItsOwn(g: Rules, o: Overrides, size: real, orders: int, positions: int, cap: real,
                           loss: real, drawdown: real, leverage: int, lock: bool)
    ensures HasEffectiveOverrides(o) <==> o != NO_OVERRIDES
    ensures MergeRules(g, NO_OVERRIDES.(maxOrderSize := Some(size))) == g.(maxOrderSize := size)
    ensures MergeRules(g, NO_OVERRIDES.(maxOpenOrders := Some(orders))) == g.(maxOpenOrders := orders)
    ensures MergeRules(g, NO_OVERRIDES.(maxPositions := Some(positions))) == g.(maxPositions := positions)
    ensures MergeRules(g, NO_OVERRIDES.(maxPositionSize := Some(cap))) == g.(maxPositionSize := cap)
    ensures MergeRules(g, NO_OVERRIDES.(maxDailyLoss := Some(loss))) == g.(maxDailyLoss := loss)
    ensures MergeRules(g, NO_OVERRIDES.(maxDrawdown := Some(drawdown))) == g.(maxDrawdown := drawdown)
    ensures MergeRules(g, NO_OVERRIDES.(maxLeverage := Some(leverage))) == g.(maxLeverage := leverage)
    ensures MergeRules(g, NO_OVERRIDES.(positionLock := Some(lock))) == g.(positionLock := lock)
    ensures MergeRules(g, Overrides(Some(size), Some(orders), Some(positions), Some(cap), Some(loss), Some(drawdown), Some(leverage), Some(lock)))
         == Rules(g.enable, size, orders, positions, cap, loss, drawdown, leverage, lock)
  {
  }

  // ---------------------------------------------------------------- exposure

  predicate OpensExposure(dir: Direction) {
    dir != Flat
  }

  /** A size that does not parse counts as zero here. */
  function SizeOrZero(size: Size): real {
    if size.Exact? then size.value else 0.0
  }

  /** An order in the position's direction, or with no position to speak of. */
  predicate IsIncreasing(dir: Direction, position: Option<Position>) {
    match dir
    case Flat => false
    case Long => position.None? || SizeOrZero(position.value.size) <= 0.0 || position.value.long
    case Short => position.None? || SizeOrZero(position.value.size) <= 0.0 || !position.value.long
  }

  /** The notional of one contract. */
  function UnitNotional(mark: real, multiplier: real): real {
    mark * multiplier
  }

  function ContractNotional(size: real, mark: real, multiplier: real): real {
    if size == 0.0 || mark <= 0.0 || multiplier <= 0.0 then 0.0 else Abs(size) * UnitNotional(mark, multiplier)
  }

  function LeverageRatio(exposure: real, equity: real): real {
    if equity <= 0.0 then 0.0 else Div16(exposure, equity)
  }

  // ---------------------------------------------------------------- the verdict chain

  datatype Code =
    | InvalidOrderSize | ProjectionNotReady | PositionLock | InvalidEquity | MaxDailyLoss | MaxDrawdown
    | MaxOpenOrders | MaxPositions | MaxLeverage | NotionalUnavailable | MaxOrderSize | MaxPositionSize

  datatype Verdict = Allow | Reject(code: Code) | Reduce(code: Code, size: real)

  /** What one evaluation sees of the order, the account and the market. */
  datatype Context = Context(
    orderSize: Size, opens: bool, openOrders: int, positions: int,
    ready: bool, available: bool, increasing: bool,
    positionNotional: real, postPosition: real, equity: real,
    dailyLoss: real, drawdown: real, postLeverage: real, perUnit: real)

  /** The checks that can only reject. */
  function Screen(r: Rules, c: Context): Option<Code> {
    if c.orderSize.Malformed? || c.orderSize.value <= 0.0 then Some(InvalidOrderSize)
    else if c.opens && !c.ready then Some(ProjectionNotReady)
    else if r.positionLock && c.opens then Some(PositionLock)
    else if c.opens && c.equity <= 0.0 then Some(InvalidEquity)
    else if c.opens && r.maxDailyLoss > 0.0 && c.dailyLoss >= r.maxDailyLoss then Some(MaxDailyLoss)
    else if c.opens && r.maxDrawdown > 0.0 && c.drawdown >= r.maxDrawdown then Some(MaxDrawdown)
    else if r.maxOpenOrders > 0 && c.openOrders >= r.maxOpenOrders then Some(MaxOpenOrders)
    else if r.maxPositions > 0 && c.opens && c.positions >= 0 && c.positions >= r.maxPositions then Some(MaxPositions)
    else if c.opens && r.maxLeverage > 0 && !c.available then Some(NotionalUnavailable)
    else if c.opens && r.maxLeverage > 0 && c.postLeverage > r.maxLeverage as real then Some(MaxLeverage)
    else None
  }

  /** The whole contracts that fit between a position and its cap, as the rule computes them. */
  function AllowedQty(cap: real, position: real, perUnit: real): real
    requires perUnit != 0.0
  {
    Floor(Div16(cap - position, perUnit))
  }

  /** The position cap, for an order of `qty` contracts that would take the position to `post`. */
  function CapRule(cap: real, position: real, post: real, perUnit: real, qty: real): Verdict {
    if post <= cap then Allow
    else if cap - position <= 0.0 then Reject(MaxPositionSize)
    else if perUnit <= 0.0 then Reject(NotionalUnavailable)
    else
      var allowed := AllowedQty(cap, position, perUnit);
      if allowed <= 0.0 then Reject(MaxPositionSize)
      else if qty > allowed then Reduce(MaxPositionSize, allowed)
      else Allow
  }

  function Evaluate(r: Rules, c: Context): Verdict {
    if !r.enable then Allow
    else if Screen(r, c).Some? then Reject(Screen(r, c).value)
    else
      var qty := SizeOrZero(c.orderSize);
      if r.maxOrderSize != 0.0 && qty > r.maxOrderSize then Reduce(MaxOrderSize, r.maxOrderSize)
      else if c.increasing && r.maxPositionSize > 0.0 then
        if !c.available then Reject(NotionalUnavailable)
        else CapRule(r.maxPositionSize, c.positionNotional, c.postPosition, c.perUnit, qty)
      else Allow
  }

  /** The limits in the order they are looked at, each with whether it is broken. */
  function Checks(r: Rules, c: Context): seq<(Code, bool)> {
    [(InvalidOrderSize, c.orderSize.Malformed? || c.orderSize.value <= 0.0),
     (ProjectionNotReady, c.opens && !c.ready),
     (PositionLock, c.opens && r.positionLock),
     (InvalidEquity, c.opens && c.equity <= 0.0),
     (MaxDailyLoss, c.opens && 0.0 < r.maxDailyLoss <= c.dailyLoss),
     (MaxDrawdown, c.opens && 0.0 < r.maxDrawdown <= c.drawdown),
     (MaxOpenOrders, 0 < r.maxOpenOrders <= c.openOrders),
     (MaxPositions, c.opens && 0 < r.maxPositions <= c.positions),
     (NotionalUnavailable, c.opens && r.maxLeverage > 0 && !c.available),
     (MaxLeverage, c.opens && r.maxLeverage > 0 && c.postLeverage > r.maxLeverage as real)]
  }

  /** A rejection names the first limit that is broken. */
  lemma FirstBrokenNamed(r: Rules, c: Context, k: nat)
    requires r.enable && k < |Checks(r, c)| && Checks(r, c)[k].1 && forall j :: 0 <= j < k ==> !Checks(r, c)[j].1
    ensures Evaluate(r, c) == Reject(Checks(r, c)[k].0)
  {
    var cs := Checks(r, c);
    assert k > 0 ==> !cs[0].1;
    assert k > 1 ==> !cs[1].1;
    assert k > 2 ==> !cs[2].1;
    assert k > 3 ==> !cs[3].1;
    assert k > 4 ==> !cs[4].1;
    assert k > 5 ==> !cs[5].1;
    assert k > 6 ==> !cs[6].1;
    assert k > 7 ==> !cs[7].1;
    assert k > 8 ==> !cs[8].1;
  }

  /** What every order that opens exposure must meet. */
  predicate OpeningAllowed(r: Rules, c: Context) {
    && c.ready && !r.positionLock && c.equity > 0.0
    && (r.maxDailyLoss > 0.0 ==> c.dailyLoss < r.maxDailyLoss)
    && (r.maxDrawdown > 0.0 ==> c.drawdown < r.maxDrawdown)
    && (r.maxPositions > 0 && c.positions >= 0 ==> c.positions < r.maxPositions)
    && (r.maxLeverage > 0 ==> c.available && c.postLeverage <= r.maxLeverage as real)
  }

  /** The cap is looked at: the order increases, and the order-size limit has not cut it down before. */
  predicate CapBinds(r: Rules, c: Context) {
    c.increasing && r.maxPositionSize > 0.0 && !(r.maxOrderSize != 0.0 && SizeOrZero(c.orderSize) > r.maxOrderSize)
  }

  /** The order fits under the cap, or at least one whole contract does. */
  predicate CapLeavesRoom(cap: real, c: Context) {
    && c.available
    && (c.postPosition <= cap || (c.positionNotional < cap && c.perUnit > 0.0 && Div16(cap - c.positionNotional, c.perUnit) >= 1.0))
  }

  /**
   * Enabled rules reject exactly when a limit is broken. The limits other than the open-order count
   * bind only orders that open exposure, and the position cap only those it is looked at for.
   */
  lemma RejectedIff(r: Rules, c: Context)
    ensures !r.enable ==> Evaluate(r, c) == Allow
    ensures r.enable ==> (!Evaluate(r, c).Reject? <==>
      && c.orderSize.Exact? && c.orderSize.value > 0.0
      && (r.maxOpenOrders > 0 ==> c.openOrders < r.maxOpenOrders)
      && (c.opens ==> OpeningAllowed(r, c))
      && (CapBinds(r, c) ==> CapLeavesRoom(r.maxPositionSize, c)))
  {
    if c.perUnit > 0.0 {
      WholeContract(Div16(r.maxPositionSize - c.positionNotional, c.perUnit));
    }
  }

  /** A rejection by the cap names it, unless it is the notional values that are missing. */
  lemma CapRejectionNamed(r: Rules, c: Context)
    requires r.enable && (forall k :: 0 <= k < |Checks(r, c)| ==> !Checks(r, c)[k].1) && CapBinds(r, c)
    requires !CapLeavesRoom(r.maxPositionSize, c)
    ensures Evaluate(r, c) == Reject(
      if !c.available || (c.positionNotional < r.maxPositionSize && c.perUnit <= 0.0) then NotionalUnavailable else MaxPositionSize)
  {
    var cs := Checks(r, c);
    assert !cs[0].1 && !cs[1].1 && !cs[2].1 && !cs[3].1 && !cs[4].1 && !cs[5].1 && !cs[6].1 && !cs[7].1 && !cs[8].1 && !cs[9].1;
    if c.perUnit > 0.0 {
      WholeContract(Div16(r.maxPositionSize - c.positionNotional, c.perUnit));
    }
  }

  lemma WholeContract(q: real)
    ensures Floor(q) > 0.0 <==> q >= 1.0
  {
  }

  // ---------------------------------------------------------------- the position cap

  lemma MulMonotone(a: real, b: real, u: real)
    requires a <= b && u >= 0.0
    ensures a * u <= b * u
  {
  }

  lemma MulStrict(a: real, b: real, u: real)
    requires a < b && u > 0.0
    ensures a * u < b * u
  {
  }

  lemma DivMul(a: real, u: real)
    requires u > 0.0
    ensures (a / u) * u == a
    ensures a > 0.0 ==> a / u > 0.0
  {
  }

  lemma FloorOfRounded(q: real)
    requires q > 0.0
    ensures 0.0 <= Floor(Round16(q)) <= q + HALF_ULP && q < Floor(Round16(q)) + 1.0
  {
    var rounded := Round16(q);
    RoundError(q);
    RoundMonotone(0.0, q);
    RoundWhole(0);
    assert rounded >= 0.0;
    var n: nat := rounded.Floor + 1;
    assert rounded < n as real;
    RoundBelowWhole(q, n);
    assert n as real == rounded.Floor as real + 1.0;
    assert q < rounded.Floor as real + 1.0;
    assert rounded.Floor as real <= q + HALF_ULP;
    assert rounded.Floor >= 0;
  }

  lemma Distribute(a: real, b: real, u: real)
    ensures (a + b) * u == a * u + b * u
  {
  }

  lemma Fits(a: real, q: real, room: real, u: real, h: real)
    requires q * u == room && a <= q + h && u > 0.0
    ensures a * u <= room + h * u
  {
    MulMonotone(a, q + h, u);
    Distribute(q, h, u);
  }

  lemma OneMoreDoesNotFit(a: real, q: real, room: real, u: real)
    requires q * u == room && q < a + 1.0 && u > 0.0
    ensures (a + 1.0) * u > room
  {
    MulStrict(q, a + 1.0, u);
  }

  /** `allowed` contracts fit, up to half a unit of the division's last place, and one more never does. */
  lemma AllowedIsLargest(cap: real, position: real, perUnit: real)
    requires cap > position && perUnit > 0.0
    ensures var allowed := AllowedQty(cap, position, perUnit);
      && allowed * perUnit <= cap - position + HALF_ULP * perUnit
      && (allowed + 1.0) * perUnit > cap - position
  {
    var q := (cap - position) / perUnit;
    DivMul(cap - position, perUnit);
    FloorOfRounded(q);
    Fits(AllowedQty(cap, position, perUnit), q, cap - position, perUnit, HALF_ULP);
    OneMoreDoesNotFit(AllowedQty(cap, position, perUnit), q, cap - position, perUnit);
  }

  /**
   * A position reduction gives a positive whole size smaller than the order's; one contract more
   * would pass the cap, and the size itself passes it by at most the division's rounding.
   */
  lemma PositionReductionIsLargest(r: Rules, c: Context)
    requires Evaluate(r, c).Reduce? && Evaluate(r, c).code == MaxPositionSize
    ensures var a := Evaluate(r, c).size; var delta := r.maxPositionSize - c.positionNotional;
      && a == Floor(a) && 1.0 <= a < c.orderSize.value
      && (a + 1.0) * c.perUnit > delta
      && a * c.perUnit <= delta + HALF_ULP * c.perUnit
  {
    AllowedIsLargest(r.maxPositionSize, c.positionNotional, c.perUnit);
  }

  lemma Overshoot(room: real, qty: real, unit: real, perUnit: real, h: real)
    requires qty > 0.0 && unit <= perUnit + h && qty * perUnit <= room + h * perUnit
    ensures qty * unit <= room + h * (perUnit + qty)
  {
    MulMonotone(unit, perUnit + h, qty);
    assert qty * (perUnit + h) == qty * perUnit + h * qty;
    assert h * (perUnit + qty) == h * perUnit + h * qty;
  }

  /** An order the cap rule allows although it passes the cap is one of at most the allowed size. */
  lemma AllowedAnyway(cap: real, position: real, post: real, perUnit: real, qty: real)
    requires CapRule(cap, position, post, perUnit, qty) == Allow && post > cap
    ensures cap > position && perUnit > 0.0 && 0.0 < AllowedQty(cap, position, perUnit) && qty <= AllowedQty(cap, position, perUnit)
  {
  }

  /** The context of an order that adds `qty * unit` to the position. */
  predicate Projects(c: Context, unit: real) {
    c.orderSize.Exact? && c.perUnit == Round16(unit) && c.postPosition == c.positionNotional + c.orderSize.value * unit
  }

  /** The cap rule lets the order of this context through. */
  predicate CapAdmits(cap: real, c: Context) {
    && c.orderSize.Exact? && c.orderSize.value > 0.0
    && CapRule(cap, c.positionNotional, c.postPosition, c.perUnit, c.orderSize.value) == Allow
  }

  /** Within the cap, up to half a unit in the 16th place of the notional per contract and of every contract. */
  predicate WithinCap(cap: real, c: Context) {
    c.postPosition <= cap || (c.orderSize.Exact? && c.postPosition <= cap + HALF_ULP * (c.perUnit + c.orderSize.value))
  }

  /** The order's size, priced with the rounded notional per contract, fits under the cap. */
  predicate Fitting(cap: real, c: Context) {
    c.orderSize.Exact? && c.orderSize.value > 0.0 && c.orderSize.value * c.perUnit <= cap - c.positionNotional + HALF_ULP * c.perUnit
  }

  lemma AdmittedFits(cap: real, c: Context)
    requires CapAdmits(cap, c) && c.postPosition > cap
    ensures Fitting(cap, c)
  {
    AllowedAnyway(cap, c.positionNotional, c.postPosition, c.perUnit, c.orderSize.value);
    AllowedIsLargest(cap, c.positionNotional, c.perUnit);
    MulMonotone(c.orderSize.value, AllowedQty(cap, c.positionNotional, c.perUnit), c.perUnit);
  }

  lemma OvershotPosition(cap: real, held: real, post: real, qty: real, unit: real, perUnit: real, h: real)
    requires qty > 0.0 && unit <= perUnit + h && qty * perUnit <= cap - held + h * perUnit && post == held + qty * unit
    ensures post <= cap + h * (perUnit + qty)
  {
    Overshoot(cap - held, qty, unit, perUnit, h);
  }

  lemma FittingWithinCap(cap: real, c: Context, unit: real)
    requires Fitting(cap, c) && Projects(c, unit)
    ensures WithinCap(cap, c)
  {
    RoundError(unit);
    OvershotPosition(cap, c.positionNotional, c.postPosition, c.orderSize.value, unit, c.perUnit, HALF_ULP);
  }

  lemma AllowMeansAdmitted(r: Rules, c: Context)
    requires r.enable && Evaluate(r, c) == Allow && c.increasing && r.maxPositionSize > 0.0
    ensures CapAdmits(r.maxPositionSize, c)
  {
  }

  /** An allowed increasing order keeps the position within the cap, up to the rounding of the two divisions. */
  lemma AllowedWithinCap(r: Rules, c: Context, unit: real)
    requires r.enable && Evaluate(r, c) == Allow && c.increasing && r.maxPositionSize > 0.0 && Projects(c, unit)
    ensures WithinCap(r.maxPositionSize, c)
  {
    AllowMeansAdmitted(r, c);
    if c.postPosition > r.maxPositionSize {
      AdmittedFits(r.maxPositionSize, c);
      FittingWithinCap(r.maxPositionSize, c, unit);
    }
  }

  /** An order of `qty` contracts, each adding `unit`, passes the cap rule. */
  predicate CapAllows(cap: real, position: real, unit: real, qty: real) {
    qty > 0.0 && CapRule(cap, position, position + qty * unit, Round16(unit), qty) == Allow
  }

  /** The size the rule would reduce to exists and itself passes the cap. */
  predicate CapLeaks(cap: real, position: real, unit: real) {
    && cap > position && Round16(unit) > 0.0
    && AllowedQty(cap, position, Round16(unit)) > 0.0
    && position + AllowedQty(cap, position, Round16(unit)) * unit > cap
  }

  predicate StaysUnder(cap: real, position: real, unit: real, qty: real) {
    position + qty * unit <= cap
  }

  /** Every size the cap rule allows stays within the cap. */
  ghost predicate CapHolds(cap: real, position: real, unit: real) {
    forall qty: real {:trigger CapAllows(cap, position, unit, qty)} ::
      CapAllows(cap, position, unit, qty) ==> StaysUnder(cap, position, unit, qty)
  }

  lemma LargerPassesToo(cap: real, position: real, qty: real, allowed: real, unit: real)
    requires position + qty * unit > cap && qty <= allowed && unit > 0.0
    ensures position + allowed * unit > cap
  {
    MulMonotone(qty, allowed, unit);
  }

  lemma AllowedWithoutLeak(cap: real, position: real, unit: real, qty: real)
    requires unit > 0.0 && CapAllows(cap, position, unit, qty) && !StaysUnder(cap, position, unit, qty)
    ensures CapLeaks(cap, position, unit)
  {
    var perUnit := Round16(unit);
    AllowedAnyway(cap, position, position + qty * unit, perUnit, qty);
    OneSizeLeaks(cap, position, unit, qty, AllowedQty(cap, position, perUnit));
  }

  lemma OneSizeLeaks(cap: real, position: real, unit: real, qty: real, allowed: real)
    requires unit > 0.0 && cap > position && Round16(unit) > 0.0 && allowed == AllowedQty(cap, position, Round16(unit))
    requires 0.0 < allowed && qty <= allowed && position + qty * unit > cap
    ensures CapLeaks(cap, position, unit)
  {
    LargerPassesToo(cap, position, qty, allowed, unit);
  }

  /** The rule lets through the size it would reduce to. */
  lemma LeakIsAllowed(cap: real, position: real, unit: real)
    requires CapLeaks(cap, position, unit)
    ensures var qty := AllowedQty(cap, position, Round16(unit));
      CapAllows(cap, position, unit, qty) && !StaysUnder(cap, position, unit, qty)
  {
  }

  /** The cap is exact for a position and a contract unless the size the rule reduces to breaks it. */
  lemma CapHoldsIff(cap: real, position: real, unit: real)
    requires unit > 0.0
    ensures CapHolds(cap, position, unit) <==> !CapLeaks(cap, position, unit)
  {
    if CapLeaks(cap, position, unit) {
      LeakIsAllowed(cap, position, unit);
    } else {
      forall qty: real {:trigger CapAllows(cap, position, unit, qty)} | CapAllows(cap, position, unit, qty)
        ensures StaysUnder(cap, position, unit, qty)
      {
        if !StaysUnder(cap, position, unit, qty) {
          AllowedWithoutLeak(cap, position, unit, qty);
        }
      }
    }
  }

  lemma FloorBelow(q: real)
    requires Round16(q) == q
    ensures Floor(Round16(q)) <= q
  {
  }

  /** With both divisions exact the cap always holds. */
  lemma ExactDivisionsHold(cap: real, position: real, unit: real)
    requires unit > 0.0 && Round16(unit) == unit
    requires Round16((cap - position) / unit) == (cap - position) / unit
    ensures CapHolds(cap, position, unit)
  {
    CapHoldsIff(cap, position, unit);
    DivMul(cap - position, unit);
    FloorBelow((cap - position) / unit);
    MulMonotone(AllowedQty(cap, position, unit), (cap - position) / unit, unit);
  }

  /** A cap just under three contracts lets three through: the quotient rounds up to 3. */
  lemma CapCanLeak()
    ensures !CapHolds(2.99999999999999998, 0.0, 1.0)
    ensures CapRule(2.99999999999999998, 0.0, 3.0, 1.0, 3.0) == Allow
  {
    RoundWhole(1);
    var q := 2.99999999999999998 / 1.0;
    assert q * SCALE + 0.5 == 30000000000000000.3;
    assert (q * SCALE + 0.5).Floor == 30000000000000000;
    assert Div16(2.99999999999999998, 1.0) == 3.0;
    assert AllowedQty(2.99999999999999998, 0.0, 1.0) == 3.0;
    CapHoldsIff(2.99999999999999998, 0.0, 1.0);
  }

  /** An allowed or reduced order is never larger than the order, and respects the order-size limit. */
  lemma VerdictShrinks(r: Rules, c: Context)
    requires r.enable && r.maxOrderSize >= 0.0 && !Evaluate(r, c).Reject?
    ensures c.orderSize.Exact? && c.orderSize.value > 0.0
    ensures var v := Evaluate(r, c); var after := if v.Reduce? then v.size else c.orderSize.value;
      && 0.0 < after <= c.orderSize.value
      && (r.maxOrderSize > 0.0 ==> after <= r.maxOrderSize)
      && (v.Reduce? ==> after < c.orderSize.value)
  {
  }
}
