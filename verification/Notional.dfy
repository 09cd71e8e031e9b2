/** Prices and notional values of contracts. */
module Notional {
  import opened Wrappers
  import opened Decimals
  import opened Risk

  /** A price string of a ticker. */
  datatype Price = Absent | Unreadable | Quoted(value: real)

  datatype Ticker = Ticker(mark: Price, last: Price)

  /** A contract's positive quanto multiplier, if its metadata has one, and its cached ticker. */
  datatype Quote = Quote(multiplier: Option<real>, ticker: Option<Ticker>)

  /** The first positive price among the mark and the last price; an unreadable one ends the search. */
  function TickerPrice(t: Ticker): (p: Option<real>)
    ensures p.Some? ==> p.value > 0.0
  {
    match t.mark
    case Unreadable => None
    case Quoted(m) => if m > 0.0 then Some(m) else LastPrice(t.last)
    case Absent => LastPrice(t.last)
  }

  function LastPrice(last: Price): (p: Option<real>)
    ensures p.Some? ==> p.value > 0.0
  {
    if last.Quoted? && last.value > 0.0 then Some(last.value) else None
  }

  method TickerMarkPrice(t: Ticker) returns (p: Option<real>)
    ensures p == TickerPrice(t)
  {
    var candidates := [t.mark, t.last];
    var i := 0;
    while i < |candidates|
      invariant 0 <= i <= |candidates|
      invariant i >= 1 ==> TickerPrice(t) == LastPrice(t.last)
      invariant i == 2 ==> LastPrice(t.last) == None
    {
      match candidates[i] {
        case Absent =>
        case Unreadable => return None;
        case Quoted(value) =>
          if value > 0.0 {
            return Some(value);
          }
      }
      i := i + 1;
    }
    p := None;
  }

  /** The position's own mark price if positive, else the ticker's. */
  function ResolveMark(q: Quote, positionMark: Option<real>): (p: Option<real>)
    ensures p.Some? ==> p.value > 0.0
  {
    if positionMark.Some? && positionMark.value > 0.0 then positionMark
    else if q.ticker.Some? then TickerPrice(q.ticker.value)
    else None
  }

  /** The notional value of one contract. */
  function Unit(q: Quote, positionMark: Option<real>): (u: Option<real>) {
    if q.multiplier.None? || q.multiplier.value <= 0.0 || ResolveMark(q, positionMark).None? then None
    else Some(UnitNotional(ResolveMark(q, positionMark).value, q.multiplier.value))
  }

  function NotionalForContracts(q: Quote, size: real, positionMark: Option<real>): Option<real> {
    if size == 0.0 then Some(0.0)
    else if q.multiplier.None? || q.multiplier.value <= 0.0 then None
    else match ResolveMark(q, positionMark)
      case None => None
      case Some(mark) => Some(ContractNotional(size, mark, q.multiplier.value))
  }

  lemma ProductPositive(a: real, b: real)
    requires a > 0.0 && b > 0.0
    ensures a * b > 0.0
  {
  }

  lemma UnitPositive(q: Quote, positionMark: Option<real>)
    ensures Unit(q, positionMark).Some? ==> Unit(q, positionMark).value > 0.0
  {
    if Unit(q, positionMark).Some? {
      ProductPositive(ResolveMark(q, positionMark).value, q.multiplier.value);
    }
  }

  /** A notional is the number of contracts times the notional of one, whatever the size. */
  lemma NotionalIsUnits(q: Quote, size: real, positionMark: Option<real>)
    requires size > 0.0
    ensures var n, u := NotionalForContracts(q, size, positionMark), Unit(q, positionMark);
      && (n.Some? <==> u.Some?)
      && (u.Some? ==> u.value > 0.0 && n.value == size * u.value)
  {
    UnitPositive(q, positionMark);
  }

  lemma Regroup(a: real, b: real, c: real)
    ensures a * (b * c) == a * b * c
  {
  }

  /**
   * A notional is the size, whichever its sign, times the mark price times the multiplier; the
   * position's own mark comes first, then the ticker's mark price, then its last price.
   */
  lemma NotionalValue(q: Quote, size: real, positionMark: Option<real>, mark: real)
    requires size != 0.0 && q.multiplier.Some? && q.multiplier.value > 0.0 && mark > 0.0
    requires positionMark == Some(mark)
          || ((positionMark.None? || positionMark.value <= 0.0) && q.ticker.Some? &&
              (q.ticker.value.mark == Quoted(mark)
               || ((q.ticker.value.mark.Absent? || (q.ticker.value.mark.Quoted? && q.ticker.value.mark.value <= 0.0))
                   && q.ticker.value.last == Quoted(mark))))
    ensures var n := NotionalForContracts(q, size, positionMark);
      n.Some? && n.value == (if size > 0.0 then size else -size) * mark * q.multiplier.value
  {
    Regroup(Abs(size), mark, q.multiplier.value);
  }

  /** It is unknown exactly without a positive multiplier or any positive price before an unreadable one. */
  lemma NotionalUnknownIff(q: Quote, size: real, positionMark: Option<real>)
    requires size != 0.0
    ensures NotionalForContracts(q, size, positionMark).None? <==>
      || q.multiplier.None? || q.multiplier.value <= 0.0
      || ((positionMark.None? || positionMark.value <= 0.0) &&
          (q.ticker.None? || q.ticker.value.mark.Unreadable?
           || (!(q.ticker.value.mark.Quoted? && q.ticker.value.mark.value > 0.0)
               && !(q.ticker.value.last.Quoted? && q.ticker.value.last.value > 0.0))))
  {
  }

  lemma ProductNonNegative(a: real, b: real)
    requires a >= 0.0 && b >= 0.0
    ensures a * b >= 0.0
  {
  }

  lemma NotionalNonNegative(q: Quote, size: real, positionMark: Option<real>)
    ensures var n := NotionalForContracts(q, size, positionMark); n.Some? ==> n.value >= 0.0
  {
    UnitPositive(q, positionMark);
    if Unit(q, positionMark).Some? {
      ProductNonNegative(Abs(size), Unit(q, positionMark).value);
    }
  }
}
