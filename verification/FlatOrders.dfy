/**
 * Several Flat signals decided on one view of the account. Orders are sent without the exchange's
 * reduce-only flag, so each closes the whole position again.
 */
module FlatOrders {
  import opened Wrappers
  import opened Decimals
  import opened Risk
  import opened RiskContext
  import opened Decision
  import opened Pipeline
  import Sizing

  /** One Flat signal's way through the dispatcher. */
  datatype Closing = Closing(sig: Signal, strategy: Strategy, mk: Market, s: Snapshot, later: Snapshot)

  /** The size its order is sent with, if one is. */
  function SentSize(cat: Catalog, acct: Account, divisor: int, c: Closing): Option<Size> {
    var d := Decide(c.sig, acct, c.mk, divisor);
    if d.Placed? then Sent(cat, Request(Flat, c.sig.contract, c.strategy), Exact(d.order.size), c.s, c.later) else None
  }

  predicate Dispatched(cat: Catalog, acct: Account, divisor: int, c: Closing) {
    c.sig.direction == Flat && LimitsNonNegative(cat, c.strategy) && SentSize(cat, acct, divisor, c).Some?
  }

  /** The contracts sent. */
  function Amount(cat: Catalog, acct: Account, divisor: int, c: Closing): real {
    var z := SentSize(cat, acct, divisor, c);
    if z.Some? then SizeOrZero(z.value) else 0.0
  }

  function Amounts(cat: Catalog, acct: Account, divisor: int, cs: seq<Closing>): seq<real> {
    seq(|cs|, i requires 0 <= i < |cs| => Amount(cat, acct, divisor, cs[i]))
  }

  function Total(amounts: seq<real>): real {
    if amounts == [] then 0.0 else Total(amounts[..|amounts| - 1]) + amounts[|amounts| - 1]
  }

  /** Parts of the orders that fill. */
  predicate FillsOf(fills: seq<real>, amounts: seq<real>) {
    |fills| == |amounts| && forall i :: 0 <= i < |fills| ==> 0.0 <= fills[i] <= amounts[i]
  }

  /** The signed position once they have filled, one after another. */
  function AfterFills(signed: real, side: Side, fills: seq<real>): real {
    if fills == [] then signed else AfterFill(AfterFills(signed, side, fills[..|fills| - 1]), side, fills[|fills| - 1])
  }

  function ClosingSide(position: Position): Side {
    if position.long then Sell else Buy
  }

  lemma {:induction false} AfterFillsTotal(signed: real, side: Side, fills: seq<real>)
    ensures AfterFills(signed, side, fills) == AfterFill(signed, side, Total(fills))
  {
    if fills != [] {
      AfterFillsTotal(signed, side, fills[..|fills| - 1]);
    }
  }

  lemma {:induction false} TotalMonotone(fills: seq<real>, amounts: seq<real>)
    requires FillsOf(fills, amounts)
    ensures 0.0 <= Total(fills) <= Total(amounts)
  {
    if fills != [] {
      var n := |fills| - 1;
      var fills', amounts' := fills[..n], amounts[..n];
      assert forall i :: 0 <= i < n ==> fills'[i] == fills[i] && amounts'[i] == amounts[i];
      TotalMonotone(fills', amounts');
    }
  }

  /** Closing fills leave a position on its side of zero exactly if they are no more than it holds. */
  lemma SideKeptIff(position: Position, fills: seq<real>, amounts: seq<real>)
    requires SizeOrZero(position.size) > 0.0 && FillsOf(fills, amounts)
    ensures Towards(AfterFills(Signed(Some(position)), ClosingSide(position), fills), Signed(Some(position))) <==>
            Total(fills) <= SizeOrZero(position.size)
  {
    AfterFillsTotal(Signed(Some(position)), ClosingSide(position), fills);
    TotalMonotone(fills, amounts);
  }

  /** The decided order is on the position's closing side. */
  predicate Closes(acct: Account, divisor: int, c: Closing) {
    var d := Decide(c.sig, acct, c.mk, divisor);
    acct.position.Some? && d.Placed? && d.order.side == ClosingSide(acct.position.value)
  }

  /** Every dispatched Flat order is positive, no larger than the position, and on its closing side. */
  lemma DispatchedCloses(cat: Catalog, acct: Account, divisor: int, c: Closing)
    requires cat.global.enable && Dispatched(cat, acct, divisor, c)
    ensures Closes(acct, divisor, c) && SizeOrZero(acct.position.value.size) > 0.0
    ensures 0.0 < Amount(cat, acct, divisor, c) <= SizeOrZero(acct.position.value.size)
  {
    var o := Decide(c.sig, acct, c.mk, divisor).order;
    SentWithinLimits(cat, Request(Flat, c.sig.contract, c.strategy), Exact(o.size), c.s, c.later);
    PositiveFlatSize(c.sig, acct, c.mk, divisor);
    FlatOrderCloses(c.sig, acct, c.mk, divisor, 0.0);
  }

  /**
   * Flat orders decided on one view of the account leave the position between zero and where it was
   * if and only if what fills of all of them is no more than the position.
   */
  lemma FlatOrdersKeepSideIff(cat: Catalog, acct: Account, divisor: int, cs: seq<Closing>, fills: seq<real>)
    requires cat.global.enable && cs != [] && (forall i :: 0 <= i < |cs| ==> Dispatched(cat, acct, divisor, cs[i]))
    requires FillsOf(fills, Amounts(cat, acct, divisor, cs))
    ensures acct.position.Some? && forall i :: 0 <= i < |cs| ==> Closes(acct, divisor, cs[i])
    ensures Towards(AfterFills(Signed(acct.position), ClosingSide(acct.position.value), fills), Signed(acct.position)) <==>
            Total(fills) <= SizeOrZero(acct.position.value.size)
  {
    assert Dispatched(cat, acct, divisor, cs[0]);
    DispatchedCloses(cat, acct, divisor, cs[0]);
    forall i | 0 <= i < |cs| ensures Closes(acct, divisor, cs[i]) {
      DispatchedCloses(cat, acct, divisor, cs[i]);
    }
    SideKeptIff(acct.position.value, fills, Amounts(cat, acct, divisor, cs));
  }

  /** No partial fills of these amounts take the position past zero. */
  ghost predicate NeverFlips(position: Position, amounts: seq<real>) {
    forall fills :: FillsOf(fills, amounts) ==>
      Towards(AfterFills(Signed(Some(position)), ClosingSide(position), fills), Signed(Some(position)))
  }

  /** However they fill, such orders cannot flip the position if and only if together they are no larger than it. */
  lemma FlatOrdersSafeIff(cat: Catalog, acct: Account, divisor: int, cs: seq<Closing>)
    requires cat.global.enable && cs != [] && (forall i :: 0 <= i < |cs| ==> Dispatched(cat, acct, divisor, cs[i]))
    ensures acct.position.Some?
    ensures var amounts := Amounts(cat, acct, divisor, cs);
      NeverFlips(acct.position.value, amounts) <==> Total(amounts) <= SizeOrZero(acct.position.value.size)
  {
    var amounts := Amounts(cat, acct, divisor, cs);
    assert Dispatched(cat, acct, divisor, cs[0]);
    DispatchedCloses(cat, acct, divisor, cs[0]);
    forall fills | FillsOf(fills, amounts) && Total(amounts) <= SizeOrZero(acct.position.value.size)
      ensures Towards(AfterFills(Signed(acct.position), ClosingSide(acct.position.value), fills), Signed(acct.position))
    {
      SideKeptIff(acct.position.value, fills, amounts);
      TotalMonotone(fills, amounts);
    }
    forall i | 0 <= i < |cs| ensures amounts[i] >= 0.0 {
      DispatchedCloses(cat, acct, divisor, cs[i]);
    }
    assert FillsOf(amounts, amounts);
    SideKeptIff(acct.position.value, amounts, amounts);
  }

  /** The same Flat signal twice, before the account shows the first one's fill: long one becomes short one. */
  lemma TwoFlatsFlip()
    ensures var p := Position("BTC_USDT", true, Exact(1.0), None);
      var cat, acct := Catalog(Rules(true, 0.0, 0, 0, 0.0, 0.0, 0.0, 0, false), []), Account(true, Exact(0.0), Some(p));
      var c := Closing(Signal("BTC_USDT", Flat, Sizing.Unset, None, true), Strategy(None, [], 0), Market(None, None), Tens([p]), Tens([p]));
      && Dispatched(cat, acct, 10, c) && Amounts(cat, acct, 10, [c, c]) == [1.0, 1.0]
      && AfterFills(Signed(Some(p)), ClosingSide(p), [1.0, 1.0]) == -1.0
  {
    var p := Position("BTC_USDT", true, Exact(1.0), None);
    AfterFillsTotal(Signed(Some(p)), ClosingSide(p), [1.0, 1.0]);
    assert [1.0, 1.0][..1] == [1.0] && [1.0][..0] == [];
    assert Total([1.0, 1.0]) == 2.0;
  }
}
