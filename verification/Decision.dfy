/** From a strategy's signal to an order: its side and its size. */
module Decision {
  import opened Wrappers
  import opened Decimals
  import opened Risk
  import opened Notional
  import opened Sizing

  /** `checked` is the outcome of the signal's checks on symbol, strength and price. */
  datatype Signal = Signal(contract: string, direction: Direction, mode: Mode, value: Option<Size>, checked: bool)

  datatype Side = Buy | Sell

  /** The account as one snapshot shows it; `available` is the free balance. */
  datatype Account = Account(ready: bool, available: Size, position: Option<Position>)

  datatype Market = Market(meta: Option<Meta>, ticker: Option<Ticker>)

  datatype Order = Order(contract: string, side: Side, size: real)

  datatype Decision = Rejected | NoOrder | Placed(order: Order)

  predicate ValidSignal(sig: Signal) {
    sig.checked && sig.mode != Unknown && (sig.value.Some? ==> SizeOrZero(sig.value.value) > 0.0)
  }

  /** The account already holds a position in the signal's direction. */
  predicate SameDirection(dir: Direction, position: Option<Position>) {
    && position.Some? && SizeOrZero(position.value.size) > 0.0
    && (if position.value.long then dir == Long else dir == Short)
  }

  /** Contracts to order; zero means none, None that they cannot be computed. */
  function OrderSize(sig: Signal, acct: Account, mk: Market, divisor: int): Option<real> {
    if sig.direction == Flat then
      Some(if acct.position.Some? then SizeOrZero(acct.position.value.size) else 0.0)
    else if SameDirection(sig.direction, acct.position) then Some(0.0)
    else if sig.mode == Custom then
      if sig.value.None? || SizeOrZero(sig.value.value) <= 0.0 then None else Some(SizeOrZero(sig.value.value))
    else match UsdtNotional(sig.mode, sig.value, SizeOrZero(acct.available), divisor)
      case None => None
      case Some(notional) => Contracts(mk.meta, mk.ticker, notional)
  }

  /** None when there is nothing to close. */
  function OrderSide(dir: Direction, position: Option<Position>): Option<Side> {
    match dir
    case Long => Some(Buy)
    case Short => Some(Sell)
    case Flat =>
      if position.None? || SizeOrZero(position.value.size) == 0.0 then None
      else Some(if position.value.long then Sell else Buy)
  }

  /** Without metadata the size is left as it is. */
  function SizeForOrder(size: real, meta: Option<Meta>): real {
    if meta.None? then size else FormatOrderSize(size, meta)
  }

  function Decide(sig: Signal, acct: Account, mk: Market, divisor: int): Decision {
    if !ValidSignal(sig) || !acct.ready then Rejected
    else match OrderSize(sig, acct, mk, divisor)
      case None => Rejected
      case Some(size) =>
        if size == 0.0 || OrderSide(sig.direction, acct.position).None? then NoOrder
        else Placed(Order(sig.contract, OrderSide(sig.direction, acct.position).value, SizeForOrder(size, mk.meta)))
  }

  class DecisionEngine {
    const divisor: int
    var processed: nat
    var rejected: nat
    var generated: nat

    constructor (divisor: int)
      ensures this.divisor == divisor && processed == 0 && rejected == 0 && generated == 0
    {
      this.divisor, processed, rejected, generated := divisor, 0, 0, 0;
    }

    /** Every signal is counted once, and once more as rejected or as an order if it ends as one. */
    method ProcessSignal(sig: Signal, acct: Account, mk: Market) returns (d: Decision)
      modifies this
      ensures d == Decide(sig, acct, mk, divisor)
      ensures processed == old(processed) + 1
      ensures rejected == old(rejected) + if d.Rejected? then 1 else 0
      ensures generated == old(generated) + if d.Placed? then 1 else 0
    {
      processed := processed + 1;
      if !ValidSignal(sig) || !acct.ready {
        rejected := rejected + 1;
        return Rejected;
      }
      var size := OrderSize(sig, acct, mk, divisor);
      if size.None? {
        rejected := rejected + 1;
        return Rejected;
      }
      if size.value == 0.0 {
        return NoOrder;
      }
      var side := OrderSide(sig.direction, acct.position);
      if side.None? {
        return NoOrder;
      }
      generated := generated + 1;
      d := Placed(Order(sig.contract, side.value, SizeForOrder(size.value, mk.meta)));
    }
  }

  /** A position as a signed number of contracts. */
  function Signed(position: Option<Position>): real {
    if position.None? then 0.0
    else if position.value.long then SizeOrZero(position.value.size)
    else -SizeOrZero(position.value.size)
  }

  /** The signed position after `filled` contracts of an order are filled. */
  function AfterFill(signed: real, side: Side, filled: real): real {
    if side == Buy then signed + filled else signed - filled
  }

  /** `x` lies between zero and `y`, on y's side of zero. */
  predicate Towards(x: real, y: real) {
    if y >= 0.0 then 0.0 <= x <= y else y <= x <= 0.0
  }

  /**
   * An order for a Long signal buys and one for a Short signal sells, so that any part of it that fills
   * moves the signed position in the signal's direction.
   */
  lemma EntryFollowsSignal(sig: Signal, acct: Account, mk: Market, divisor: int, z: real)
    requires Decide(sig, acct, mk, divisor).Placed? && z > 0.0
    ensures var o, signed := Decide(sig, acct, mk, divisor).order, Signed(acct.position);
      && o.contract == sig.contract
      && (sig.direction == Long ==> o.side == Buy && AfterFill(signed, o.side, z) > signed)
      && (sig.direction == Short ==> o.side == Sell && AfterFill(signed, o.side, z) < signed)
  {
  }

  /** Whether the formatted size is the size itself: no metadata, fractional contracts, or a whole number. */
  predicate FormattedAsIs(size: real, meta: Option<Meta>) {
    meta.None? || meta.value.decimalSize || size == Floor(size)
  }

  lemma FormatKeeps(size: real, meta: Option<Meta>)
    requires FormattedAsIs(size, meta)
    ensures SizeForOrder(size, meta) == size
  {
    WholeTruncates(size);
  }

  lemma WholeTruncates(x: real)
    ensures x == Floor(x) ==> Truncate(x) == x
  {
    if x == Floor(x) { assert (-x).Floor == -x.Floor; }
  }

  /** A Flat order is for the whole position. */
  lemma FlatSize(sig: Signal, acct: Account, mk: Market, divisor: int)
    requires Decide(sig, acct, mk, divisor).Placed? && sig.direction == Flat
    ensures acct.position.Some? && acct.position.value.size.Exact?
    ensures var held := acct.position.value.size.value;
      FormattedAsIs(held, mk.meta) ==> Decide(sig, acct, mk, divisor).order.size == held
  {
    var held := acct.position.value.size.value;
    if FormattedAsIs(held, mk.meta) { FormatKeeps(held, mk.meta); }
  }

  /** A Custom order has the number of contracts asked for. */
  lemma CustomSize(sig: Signal, acct: Account, mk: Market, divisor: int)
    requires Decide(sig, acct, mk, divisor).Placed? && sig.direction != Flat && sig.mode == Custom
    ensures sig.value.Some? && sig.value.value.Exact? && sig.value.value.value > 0.0
    ensures var asked := sig.value.value.value;
      FormattedAsIs(asked, mk.meta) ==> Decide(sig, acct, mk, divisor).order.size == asked
  {
    var asked := sig.value.value.value;
    if FormattedAsIs(asked, mk.meta) { FormatKeeps(asked, mk.meta); }
  }

  /** Any other order costs a budget taken from the free balance: the size the budget buys, formatted. */
  lemma BudgetedSizes(sig: Signal, acct: Account, mk: Market, divisor: int)
    requires Decide(sig, acct, mk, divisor).Placed? && sig.direction != Flat && sig.mode != Custom
    ensures var budget := UsdtNotional(sig.mode, sig.value, SizeOrZero(acct.available), divisor);
      && budget.Some? && Contracts(mk.meta, mk.ticker, budget.value).Some? && mk.meta.Some?
      && var bought := Contracts(mk.meta, mk.ticker, budget.value).value;
         bought > 0.0 && Decide(sig, acct, mk, divisor).order.size == (if mk.meta.value.decimalSize then bought else Floor(bought))
  {
  }

  /** Orders come only from checked signals, on a ready account, with an amount that is positive if given. */
  lemma OrdersNeed(sig: Signal, acct: Account, mk: Market, divisor: int)
    requires Decide(sig, acct, mk, divisor).Placed?
    ensures sig.checked && acct.ready && sig.mode != Unknown
    ensures sig.value.Some? ==> sig.value.value.Exact? && sig.value.value.value > 0.0
    ensures sig.direction == Flat ==> acct.position.Some? && acct.position.value.size.Exact? && acct.position.value.size.value != 0.0
  {
  }

  /**
   * An order for a Flat signal closes: its side is opposite to the position, and no fill of any part
   * of it takes the position past zero.
   */
  lemma FlatOrderCloses(sig: Signal, acct: Account, mk: Market, divisor: int, filled: real)
    requires sig.direction == Flat && Decide(sig, acct, mk, divisor).Placed?
    requires 0.0 <= filled <= Decide(sig, acct, mk, divisor).order.size
    ensures acct.position.Some? && Decide(sig, acct, mk, divisor).order.side == (if acct.position.value.long then Sell else Buy)
    ensures Decide(sig, acct, mk, divisor).order.size <= SizeOrZero(acct.position.value.size)
            || SizeOrZero(acct.position.value.size) < 0.0
    ensures SizeOrZero(acct.position.value.size) > 0.0 ==>
      Towards(AfterFill(Signed(acct.position), Decide(sig, acct, mk, divisor).order.side, filled), Signed(acct.position))
  {
  }

  /** A new position is never opened in a direction already held; any other position is as good as none. */
  lemma NoRepeatedEntry(sig: Signal, acct: Account, mk: Market, divisor: int)
    requires sig.direction != Flat && ValidSignal(sig) && acct.ready
    ensures var p := acct.position;
      Decide(sig, acct, mk, divisor) ==
        if p.Some? && SizeOrZero(p.value.size) > 0.0 && p.value.long == (sig.direction == Long) then NoOrder
        else Decide(sig, acct.(position := None), mk, divisor)
  {
  }

  /** The size asked for or the number of contracts the budget buys, if there is one. */
  function Wished(sig: Signal, acct: Account, mk: Market, divisor: int): Option<real> {
    if sig.mode == Custom then (if sig.value.Some? then Some(SizeOrZero(sig.value.value)) else None)
    else
      var budget := UsdtNotional(sig.mode, sig.value, SizeOrZero(acct.available), divisor);
      if budget.Some? then Contracts(mk.meta, mk.ticker, budget.value) else None
  }

  /**
   * A signal is refused exactly if it or the account is unfit, or if it is to open a position whose size
   * cannot be told; a signal with nothing to do is not refused.
   */
  lemma RefusedIff(sig: Signal, acct: Account, mk: Market, divisor: int)
    ensures var p := acct.position;
      Decide(sig, acct, mk, divisor).Rejected? <==>
        || !sig.checked || sig.mode == Unknown || !acct.ready
        || (sig.value.Some? && (sig.value.value.Malformed? || sig.value.value.value <= 0.0))
        || (&& sig.direction != Flat && !(p.Some? && SizeOrZero(p.value.size) > 0.0 && p.value.long == (sig.direction == Long))
            && Wished(sig, acct, mk, divisor).None?)
  {
  }

  /** A budget of nothing is no order rather than a refusal, whatever is known of the contract. */
  lemma NothingToSpend(sig: Signal, acct: Account, mk: Market, divisor: int)
    requires sig.direction != Flat && ValidSignal(sig) && acct.ready && sig.mode == Unset && SizeOrZero(acct.available) == 0.0
    ensures Decide(sig, acct, mk, divisor) == NoOrder
  {
    RoundWhole(0);
  }
}
