/** Building the context of one risk evaluation, and when its notional values may be skipped. */
module RiskContext {
  import opened Wrappers
  import opened Decimals
  import opened Risk
  import opened Notional

  /** What the account, the order engine, the equity tracker and the quotes show at one moment. */
  datatype Snapshot = Snapshot(
    ready: bool, positions: seq<Position>, equity: Option<real>,
    openOrders: int, dailyLoss: real, drawdown: real, quotes: string -> Quote)

  /** The account's position in a contract. */
  function Find(positions: seq<Position>, contract: string): Option<Position> {
    if positions == [] then None
    else if positions[0].contract == contract then Some(positions[0])
    else Find(positions[1..], contract)
  }

  /** One position's share of the exposure; sizes that are malformed or not positive are left out. */
  function Share(s: Snapshot, p: Position): Option<real> {
    if p.size.Malformed? || p.size.value <= 0.0 then Some(0.0)
    else NotionalForContracts(s.quotes(p.contract), p.size.value, p.mark)
  }

  /** The notional of all positions; one that cannot be priced makes it unknown. */
  function Exposure(s: Snapshot, positions: seq<Position>): Option<real> {
    if positions == [] then Some(0.0) else
      var rest, share := Exposure(s, positions[..|positions| - 1]), Share(s, positions[|positions| - 1]);
      if rest.Some? && share.Some? then Some(rest.value + share.value) else None
  }

  lemma {:induction false} ExposureKnownPrefix(s: Snapshot, positions: seq<Position>, k: nat)
    requires k <= |positions| && Exposure(s, positions[..k]).None?
    ensures Exposure(s, positions).None?
  {
    if k < |positions| {
      var n := |positions| - 1;
      assert positions[..n][..k] == positions[..k];
      ExposureKnownPrefix(s, positions[..n], k);
    } else {
      assert positions[..k] == positions;
    }
  }

  method TotalExposure(s: Snapshot) returns (total: Option<real>)
    ensures total == Exposure(s, s.positions)
  {
    var sum := 0.0;
    var i := 0;
    while i < |s.positions|
      invariant 0 <= i <= |s.positions|
      invariant Exposure(s, s.positions[..i]) == Some(sum)
    {
      var p := s.positions[i];
      assert s.positions[..i + 1][..i] == s.positions[..i];
      if p.size.Exact? && p.size.value > 0.0 {
        var n := NotionalForContracts(s.quotes(p.contract), p.size.value, p.mark);
        if n.None? {
          ExposureKnownPrefix(s, s.positions, i + 1);
          return None;
        }
        sum := sum + n.value;
      }
      i := i + 1;
    }
    assert s.positions[..i] == s.positions;
    total := Some(sum);
  }

  // ---------------------------------------------------------------- the context

  function Base(s: Snapshot, dir: Direction, size: Size): Context {
    Context(size, OpensExposure(dir), s.openOrders, if s.ready then |s.positions| else 0, s.ready, false, false,
            0.0, 0.0, if s.ready && s.equity.Some? then s.equity.value else 0.0, s.dailyLoss, s.drawdown, 0.0, 0.0)
  }

  /** The mark price the account reports for its position, if it has one. */
  function MarkOf(position: Option<Position>): Option<real> {
    if position.Some? then position.value.mark else None
  }

  function PositionNotional(q: Quote, position: Option<Position>): Option<real> {
    if position.None? then Some(0.0) else NotionalForContracts(q, SizeOrZero(position.value.size), position.value.mark)
  }

  /** The notional values an order's context is filled from: of the order, of the position held, of all positions. */
  datatype Priced = Priced(order: Option<real>, held: Option<real>, total: Option<real>)

  function PriceOrder(s: Snapshot, contract: string, qty: real): Priced {
    var position, q := Find(s.positions, contract), s.quotes(contract);
    Priced(NotionalForContracts(q, qty, MarkOf(position)), PositionNotional(q, position), Exposure(s, s.positions))
  }

  /** Adds the notional values of an order of `qty` contracts; `available` stays false if any is unknown. */
  function Fill(c: Context, p: Priced, qty: real): Context
    requires qty > 0.0
  {
    if p.order.None? then c
    else
      var c1 := c.(perUnit := Div16(p.order.value, qty));
      if p.held.None? then c1
      else if p.total.None? then c1.(positionNotional := p.held.value)
      else
        var held, total := p.held.value, p.total.value;
        c1.(available := true, positionNotional := held,
            postPosition := if c.increasing then held + p.order.value else held,
            postLeverage := if c.equity <= 0.0 then 0.0
                            else LeverageRatio(if c.increasing then total + p.order.value else total, c.equity))
  }

  /** `needs` is the gate that says, for an increasing order or not, whether any rule reads notional values. */
  function Build(s: Snapshot, needs: bool -> bool, dir: Direction, contract: string, size: Size): Context {
    var c := Base(s, dir, size);
    if !OpensExposure(dir) then c.(available := true)
    else if !s.ready then c
    else
      var increasing := IsIncreasing(dir, Find(s.positions, contract));
      var c1 := c.(increasing := increasing);
      if !needs(increasing) then c1.(available := true)
      else if size.Malformed? || size.value <= 0.0 then c1
      else Fill(c1, PriceOrder(s, contract, size.value), size.value)
  }

  lemma BuildKeepsSize(s: Snapshot, needs: bool -> bool, dir: Direction, contract: string, size: Size)
    ensures Build(s, needs, dir, contract, size).orderSize == size
  {
  }

  /** The context is filled field by field, and left where the first unknown value stops it. */
  method BuildRiskContext(s: Snapshot, needs: bool -> bool, dir: Direction, contract: string, size: Size) returns (rc: Context)
    ensures rc == Build(s, needs, dir, contract, size)
  {
    rc := Context(size, OpensExposure(dir), s.openOrders, 0, s.ready, false, false, 0.0, 0.0, 0.0, s.dailyLoss, s.drawdown, 0.0, 0.0);
    if s.ready {
      rc := rc.(positions := |s.positions|);
      if s.equity.Some? {
        rc := rc.(equity := s.equity.value);
      }
    }
    if !rc.opens {
      rc := rc.(available := true);
      return;
    }
    if !s.ready {
      return;
    }
    var position := Find(s.positions, contract);
    rc := rc.(increasing := IsIncreasing(dir, position));
    if !needs(rc.increasing) {
      rc := rc.(available := true);
      return;
    }
    if size.Malformed? || size.value <= 0.0 {
      return;
    }
    var notional := NotionalForContracts(s.quotes(contract), size.value, MarkOf(position));
    if notional.None? {
      return;
    }
    rc := rc.(perUnit := Div16(notional.value, size.value));
    if position.Some? {
      var held := NotionalForContracts(s.quotes(contract), SizeOrZero(position.value.size), position.value.mark);
      if held.None? {
        return;
      }
      rc := rc.(positionNotional := held.value);
    }
    var total := TotalExposure(s);
    if total.None? {
      return;
    }
    var post, exposure := rc.positionNotional, total.value;
    if rc.increasing {
      post, exposure := post + notional.value, exposure + notional.value;
    }
    rc := rc.(available := true, postPosition := post);
    if rc.equity > 0.0 {
      rc := rc.(postLeverage := LeverageRatio(exposure, rc.equity));
    }
  }

  /** The context shows the order, the account and the counts of the snapshot as they are. */
  lemma BuildSees(s: Snapshot, needs: bool -> bool, dir: Direction, contract: string, size: Size)
    ensures var c := Build(s, needs, dir, contract, size);
      && c.orderSize == size && (c.opens <==> dir != Flat) && c.ready == s.ready
      && c.openOrders == s.openOrders && c.dailyLoss == s.dailyLoss && c.drawdown == s.drawdown
      && c.positions == (if s.ready then |s.positions| else 0)
      && c.equity == (if s.ready && s.equity.Some? then s.equity.value else 0.0)
      && (c.increasing ==> s.ready && dir != Flat)
  {
  }

  /** Its leverage is that of all positions and, if it increases, of the order, over the equity. */
  lemma BuildLeverage(s: Snapshot, needs: bool -> bool, dir: Direction, contract: string, qty: real)
    requires s.ready && s.equity.Some? && s.equity.value > 0.0 && qty > 0.0 && dir != Flat
    requires var c := Build(s, needs, dir, contract, Exact(qty)); c.available && needs(c.increasing)
    ensures var c := Build(s, needs, dir, contract, Exact(qty));
      var order, total := NotionalForContracts(s.quotes(contract), qty, MarkOf(Find(s.positions, contract))), Exposure(s, s.positions);
      && order.Some? && total.Some?
      && c.postLeverage == Div16(if c.increasing then total.value + order.value else total.value, s.equity.value)
  {
  }

  /** Each position of positive size adds its notional to the exposure, and no other does. */
  lemma ExposureAdds(s: Snapshot, positions: seq<Position>, p: Position)
    ensures var before, after := Exposure(s, positions), Exposure(s, positions + [p]);
      if p.size.Exact? && p.size.value > 0.0 then
        var n := NotionalForContracts(s.quotes(p.contract), p.size.value, p.mark);
        && (after.Some? <==> before.Some? && n.Some?)
        && (after.Some? ==> after.value == before.value + n.value)
      else after == before
  {
    assert (positions + [p])[..|positions|] == positions;
  }

  /** An account's position in a contract is the first one listed for it. */
  lemma {:induction false} FindFirst(positions: seq<Position>, contract: string)
    ensures Find(positions, contract).None? <==> forall i :: 0 <= i < |positions| ==> positions[i].contract != contract
    ensures forall i :: 0 <= i < |positions| && positions[i].contract == contract
                        && (forall j :: 0 <= j < i ==> positions[j].contract != contract) ==>
              Find(positions, contract) == Some(positions[i])
  {
    if positions != [] && positions[0].contract != contract {
      FindFirst(positions[1..], contract);
      forall i | 1 <= i < |positions| && positions[i].contract == contract
                 && (forall j :: 0 <= j < i ==> positions[j].contract != contract)
        ensures Find(positions, contract) == Some(positions[i])
      {
        assert positions[1..][i - 1] == positions[i];
        assert forall j :: 0 <= j < i - 1 ==> positions[1..][j].contract != contract;
      }
    }
  }

  // ---------------------------------------------------------------- the gate

  /** Some rule set in force, global or a strategy's, meets a demand. */
  predicate AnyRules(global: Rules, catalog: seq<Option<Overrides>>, demands: Rules -> bool) {
    || demands(global)
    || exists i :: 0 <= i < |catalog| && catalog[i].Some? && HasEffectiveOverrides(catalog[i].value)
         && demands(MergeRules(global, catalog[i].value))
  }

  predicate NeedsNotional(global: Rules, catalog: seq<Option<Overrides>>, increasing: bool) {
    || AnyRules(global, catalog, (r: Rules) => r.maxLeverage > 0)
    || (increasing && AnyRules(global, catalog, (r: Rules) => r.maxPositionSize > 0.0))
  }

  /** The rules some evaluation can use. */
  ghost predicate InForce(rules: Rules, global: Rules, catalog: seq<Option<Overrides>>) {
    || rules == global
    || exists i :: 0 <= i < |catalog| && catalog[i].Some? && HasEffectiveOverrides(catalog[i].value)
         && rules == MergeRules(global, catalog[i].value)
  }

  lemma GateReadsRules(rules: Rules, global: Rules, catalog: seq<Option<Overrides>>, increasing: bool)
    requires InForce(rules, global, catalog) && !NeedsNotional(global, catalog, increasing)
    ensures rules.maxLeverage <= 0 && (increasing ==> rules.maxPositionSize <= 0.0)
  {
  }

  /** Rules without a leverage limit, or a position cap that applies, do not read the notional fields. */
  lemma NotionalsUnread(r: Rules, c: Context, d: Context)
    requires r.maxLeverage <= 0 && (c.increasing ==> r.maxPositionSize <= 0.0)
    requires SameButNotionals(c, d)
    ensures Evaluate(r, c) == Evaluate(r, d)
  {
  }

  /** The same order in the eyes of one strategy: its own open orders and positions are counted. */
  function Scoped(c: Context, openOrders: int, positions: int): Context {
    c.(openOrders := openOrders, positions := positions)
  }

  predicate SameButNotionals(c: Context, d: Context) {
    d == c.(available := d.available, positionNotional := d.positionNotional, postPosition := d.postPosition,
            postLeverage := d.postLeverage, perUnit := d.perUnit)
  }

  lemma FillKeepsTheRest(c: Context, p: Priced, qty: real)
    requires qty > 0.0
    ensures SameButNotionals(c, Fill(c, p, qty))
  {
  }

  lemma GatesDiffer(s: Snapshot, gate: bool -> bool, always: bool -> bool, dir: Direction, contract: string, size: Size)
    requires always(IsIncreasing(dir, Find(s.positions, contract)))
    ensures SameButNotionals(Build(s, gate, dir, contract, size), Build(s, always, dir, contract, size))
    ensures !OpensExposure(dir) || !s.ready || gate(IsIncreasing(dir, Find(s.positions, contract))) ==>
      Build(s, gate, dir, contract, size) == Build(s, always, dir, contract, size)
  {
    if OpensExposure(dir) && s.ready && size.Exact? && size.value > 0.0 {
      FillKeepsTheRest(Base(s, dir, size).(increasing := IsIncreasing(dir, Find(s.positions, contract))),
                       PriceOrder(s, contract, size.value), size.value);
    }
  }

  /**
   * For the global rules and for every strategy's, the verdict is the same whether notional values
   * are computed only when the gate asks for them or always, with any scope's counts.
   */
  lemma LazyGateEqualsEager(rules: Rules, global: Rules, catalog: seq<Option<Overrides>>, s: Snapshot,
                            dir: Direction, contract: string, size: Size, openOrders: int, positions: int,
                            gate: bool -> bool, always: bool -> bool)
    requires InForce(rules, global, catalog)
    requires forall inc :: always(inc) && gate(inc) == NeedsNotional(global, catalog, inc)
    ensures Evaluate(rules, Scoped(Build(s, gate, dir, contract, size), openOrders, positions))
         == Evaluate(rules, Scoped(Build(s, always, dir, contract, size), openOrders, positions))
  {
    var increasing := IsIncreasing(dir, Find(s.positions, contract));
    GatesDiffer(s, gate, always, dir, contract, size);
    if OpensExposure(dir) && s.ready && !gate(increasing) {
      GateReadsRules(rules, global, catalog, increasing);
      NotionalsUnread(rules, Scoped(Build(s, gate, dir, contract, size), openOrders, positions),
                      Scoped(Build(s, always, dir, contract, size), openOrders, positions));
    }
  }

  // ---------------------------------------------------------------- re-evaluation

  /** The notional of one contract, as an order in this contract is priced. */
  function OrderUnit(s: Snapshot, contract: string): Option<real> {
    Unit(s.quotes(contract), MarkOf(Find(s.positions, contract)))
  }

  /** The notional of the position held in this contract. */
  function HeldNotional(s: Snapshot, contract: string): Option<real> {
    PositionNotional(s.quotes(contract), Find(s.positions, contract))
  }

  /** The fields a successful fill sets for an increasing order. */
  predicate Sets(d: Context, p: Priced, qty: real)
    requires qty > 0.0
  {
    && d.orderSize == Exact(qty) && p.order.Some? && p.held.Some? && p.total.Some?
    && d.perUnit == Div16(p.order.value, qty)
    && d.positionNotional == p.held.value && d.postPosition == d.positionNotional + p.order.value
  }

  lemma FillSets(c: Context, p: Priced, qty: real)
    requires qty > 0.0 && c.orderSize == Exact(qty) && c.increasing && Fill(c, p, qty).available && !c.available
    ensures Sets(Fill(c, p, qty), p, qty)
  {
  }

  lemma SetProjects(d: Context, p: Priced, qty: real, unit: real)
    requires qty > 0.0 && Sets(d, p, qty) && p.order.value == qty * unit
    ensures Projects(d, unit)
  {
    assert p.order.value / qty == unit;
  }

  lemma PriceIsUnits(s: Snapshot, contract: string, qty: real)
    requires qty > 0.0
    ensures var p, u := PriceOrder(s, contract, qty), OrderUnit(s, contract);
      && (p.order.Some? <==> u.Some?)
      && (u.Some? ==> u.value > 0.0 && p.order.value == qty * u.value)
  {
    NotionalIsUnits(s.quotes(contract), qty, MarkOf(Find(s.positions, contract)));
  }

  /** What an increasing order with notional values has behind its context. */
  ghost predicate Filled(s: Snapshot, dir: Direction, contract: string, size: Size, d: Context) {
    && size.Exact? && size.value > 0.0 && d.available
    && d == Fill(Base(s, dir, size).(increasing := true), PriceOrder(s, contract, size.value), size.value)
  }

  lemma BuildFilled(s: Snapshot, needs: bool -> bool, dir: Direction, contract: string, size: Size)
    requires var d := Build(s, needs, dir, contract, size); d.increasing && d.available && needs(true)
    ensures Filled(s, dir, contract, size, Build(s, needs, dir, contract, size))
  {
  }

  /** Each contract of the order adds the same notional to that of the position held. */
  ghost predicate Linear(s: Snapshot, contract: string, d: Context) {
    var u, held := OrderUnit(s, contract), HeldNotional(s, contract);
    u.Some? && u.value > 0.0 && Projects(d, u.value) && held.Some? && d.positionNotional == held.value
  }

  lemma FilledProjects(s: Snapshot, dir: Direction, contract: string, size: Size, d: Context)
    requires Filled(s, dir, contract, size, d)
    ensures Linear(s, contract, d)
  {
    var c, p, u := Base(s, dir, size).(increasing := true), PriceOrder(s, contract, size.value), OrderUnit(s, contract);
    FillSets(c, p, size.value);
    PriceIsUnits(s, contract, size.value);
    SetProjects(d, p, size.value, u.value);
  }

  /** An increasing order's context prices every contract alike: `qty` of them add `qty` units to the position. */
  lemma BuildProjects(s: Snapshot, needs: bool -> bool, dir: Direction, contract: string, size: Size)
    requires var d := Build(s, needs, dir, contract, size); d.increasing && d.available && needs(true)
    ensures Linear(s, contract, Build(s, needs, dir, contract, size))
  {
    BuildFilled(s, needs, dir, contract, size);
    FilledProjects(s, dir, contract, size, Build(s, needs, dir, contract, size));
  }

  /** The mark of the position held prices the position and the order, whatever the ticker says. */
  lemma PositionMarkPrices(s: Snapshot, contract: string, mark: real, qty: real)
    requires var p := Find(s.positions, contract); p.Some? && p.value.mark == Some(mark) && mark > 0.0
    requires var m := s.quotes(contract).multiplier; m.Some? && m.value > 0.0
    requires qty > 0.0
    ensures var unit := OrderUnit(s, contract); unit.Some? && unit.value == mark * s.quotes(contract).multiplier.value
    ensures var order := PriceOrder(s, contract, qty).order;
      order.Some? && order.value == qty * mark * s.quotes(contract).multiplier.value
    ensures var held, size := HeldNotional(s, contract), SizeOrZero(Find(s.positions, contract).value.size);
      size > 0.0 ==> held.Some? && held.value == size * mark * s.quotes(contract).multiplier.value
  {
    var size := SizeOrZero(Find(s.positions, contract).value.size);
    NotionalValue(s.quotes(contract), qty, Some(mark), mark);
    if size > 0.0 { NotionalValue(s.quotes(contract), size, Some(mark), mark); }
  }
}
