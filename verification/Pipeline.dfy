/** The path of a signal: kill switch, decision, the strategy's risk rules, the global ones, dispatch. */
module Pipeline {
  import opened Wrappers
  import opened Decimals
  import opened Risk
  import opened Notional
  import opened RiskContext
  import opened Sizing
  import opened Decision
  import Strings

  /** A strategy as risk sees it: its overrides, its contracts and its own open orders. */
  datatype Strategy = Strategy(overrides: Option<Overrides>, symbols: seq<string>, openOrders: int)

  /** The rules in force: the global ones and every strategy's overrides. */
  datatype Catalog = Catalog(global: Rules, overrides: seq<Option<Overrides>>)

  predicate Overrules(st: Strategy) {
    st.overrides.Some? && HasEffectiveOverrides(st.overrides.value)
  }

  function Gate(cat: Catalog): bool -> bool {
    (increasing: bool) => NeedsNotional(cat.global, cat.overrides, increasing)
  }

  // ---------------------------------------------------------------- a strategy's positions

  /** The contracts a strategy lists, without surrounding blanks. */
  function ContractsOf(symbols: seq<string>): set<string> {
    set sym | sym in symbols && Strings.TrimSpace(sym) != "" :: Strings.TrimSpace(sym)
  }

  /** The position counts for a strategy that lists its contract. */
  predicate Held(p: Position, symbols: seq<string>) {
    p.contract in ContractsOf(symbols) && p.size.Exact? && p.size.value > 0.0
  }

  function HeldBy(positions: seq<Position>, symbols: seq<string>): set<int> {
    set i | 0 <= i < |positions| && Held(positions[i], symbols)
  }

  lemma HeldByNext(positions: seq<Position>, symbols: seq<string>, i: nat)
    requires i < |positions|
    ensures |HeldBy(positions[..i + 1], symbols)| == |HeldBy(positions[..i], symbols)| + if Held(positions[i], symbols) then 1 else 0
  {
    var shorter, longer := positions[..i], positions[..i + 1];
    assert longer == shorter + [positions[i]];
    HeldByAppend(shorter, positions[i], symbols);
  }

  lemma HeldByAppend(shorter: seq<Position>, p: Position, symbols: seq<string>)
    ensures HeldBy(shorter + [p], symbols) == HeldBy(shorter, symbols) + if Held(p, symbols) then {|shorter|} else {}
  {
  }

  method ListedContracts(symbols: seq<string>) returns (allowed: set<string>)
    ensures allowed == ContractsOf(symbols)
  {
    allowed := {};
    for i := 0 to |symbols|
      invariant allowed == ContractsOf(symbols[..i])
    {
      assert symbols[..i + 1] == symbols[..i] + [symbols[i]];
      var sym := Strings.TrimSpace(symbols[i]);
      if sym != "" {
        allowed := allowed + {sym};
      }
    }
    assert symbols[..|symbols|] == symbols;
  }

  /** How many of the strategy's contracts have a position; -1 while the account is not ready. */
  method OpenPositionCountForStrategy(s: Snapshot, symbols: seq<string>) returns (n: int)
    ensures n == PositionCount(s, symbols)
    ensures if s.ready then n >= 0 && (symbols == [] ==> n == 0) else n == -1
  {
    if !s.ready {
      return -1;
    }
    if |symbols| == 0 {
      assert HeldBy(s.positions, symbols) == {};
      return 0;
    }
    var allowed := ListedContracts(symbols);
    n := 0;
    var i := 0;
    while i < |s.positions|
      invariant 0 <= i <= |s.positions|
      invariant n == |HeldBy(s.positions[..i], symbols)|
    {
      HeldByNext(s.positions, symbols, i);
      if s.positions[i].contract in allowed && s.positions[i].size.Exact? && s.positions[i].size.value > 0.0 {
        n := n + 1;
      }
      i := i + 1;
    }
    assert s.positions[..i] == s.positions;
  }

  function PositionCount(s: Snapshot, symbols: seq<string>): int {
    if s.ready then |HeldBy(s.positions, symbols)| else -1
  }

  // ---------------------------------------------------------------- the two tiers

  /** What is asked of risk: the order's direction and contract, and the strategy that sent it. */
  datatype Request = Request(dir: Direction, contract: string, strategy: Strategy)

  /** The outcome of the strategy tier: its verdict, the order's size and the context for the global tier. */
  datatype Tier = Tier(verdict: Verdict, size: Size, context: Context)

  function MergedRules(cat: Catalog, st: Strategy): Rules
    requires st.overrides.Some?
  {
    MergeRules(cat.global, st.overrides.value)
  }

  /** `s` is the snapshot of the first context; a reduction builds a second one on `later`. */
  function TierWith(cat: Catalog, needs: bool -> bool, req: Request, size: Size, s: Snapshot, later: Snapshot): Tier {
    var base := Build(s, needs, req.dir, req.contract, size);
    if !Overrules(req.strategy) then Tier(Allow, size, base)
    else
      var v := Evaluate(MergedRules(cat, req.strategy), Scoped(base, req.strategy.openOrders, PositionCount(s, req.strategy.symbols)));
      if v.Reduce? then Tier(v, Exact(v.size), Build(later, needs, req.dir, req.contract, Exact(v.size)))
      else Tier(v, size, base)
  }

  function StrategyTier(cat: Catalog, req: Request, size: Size, s: Snapshot, later: Snapshot): Tier {
    TierWith(cat, Gate(cat), req, size, s, later)
  }

  /** What the global rules make of the strategy tier's outcome. */
  function AfterGlobal(global: Rules, tier: Tier): Option<Size> {
    if tier.verdict.Reject? then None
    else
      var v := Evaluate(global, tier.context);
      if v.Reject? then None else if v.Reduce? then Some(Exact(v.size)) else Some(tier.size)
  }

  /** The size of the order that is sent on, if one is. */
  function Sent(cat: Catalog, req: Request, size: Size, s: Snapshot, later: Snapshot): Option<Size> {
    AfterGlobal(cat.global, StrategyTier(cat, req, size, s, later))
  }

  class PendingOrder {
    const contract: string
    const side: Side
    var size: Size

    constructor (o: Order)
      ensures contract == o.contract && side == o.side && size == Exact(o.size)
    {
      contract, side, size := o.contract, o.side, Exact(o.size);
    }
  }

  /** The strategy tier writes a reduced size into the order and rebuilds its context. */
  method EvaluateStrategyRisk(cat: Catalog, req: Request, order: PendingOrder, base: Context, s: Snapshot, later: Snapshot)
    returns (v: Verdict, rc: Context)
    requires base == Build(s, Gate(cat), req.dir, req.contract, order.size)
    modifies order
    ensures Tier(v, order.size, rc) == StrategyTier(cat, req, old(order.size), s, later)
  {
    if !Overrules(req.strategy) {
      return Allow, base;
    }
    var positions := OpenPositionCountForStrategy(s, req.strategy.symbols);
    v := Evaluate(MergedRules(cat, req.strategy), Scoped(base, req.strategy.openOrders, positions));
    rc := base;
    if v.Reduce? {
      order.size := Exact(v.size);
      rc := BuildRiskContext(later, Gate(cat), req.dir, req.contract, order.size);
    }
  }

  /**
   * One signal's way through the dispatcher; the order, if one is sent, carries the size both tiers
   * left it.
   */
  method DispatchSignal(cat: Catalog, sig: Signal, st: Strategy, killed: bool, acct: Account, mk: Market, engine: DecisionEngine,
                        s: Snapshot, later: Snapshot)
    returns (sent: Option<PendingOrder>)
    modifies engine
    ensures sent.Some? ==> fresh(sent.value)
    ensures killed && sig.direction != Flat ==> sent.None?
    ensures sent.Some? ==>
      && sent.value.contract == sig.contract && (sig.direction == Long ==> sent.value.side == Buy)
      && (sig.direction == Short ==> sent.value.side == Sell)
      && (sig.direction == Flat ==> acct.position.Some? && sent.value.side == (if acct.position.value.long then Sell else Buy))
    ensures !(killed && OpensExposure(sig.direction)) ==>
      var d := Decide(sig, acct, mk, engine.divisor);
      && (!d.Placed? ==> sent.None?)
      && (d.Placed? ==>
            var size := Sent(cat, Request(sig.direction, sig.contract, st), Exact(d.order.size), s, later);
            && (sent.Some? <==> size.Some?)
            && (sent.Some? ==>
                  sent.value.size == size.value && sent.value.side == d.order.side && sent.value.contract == d.order.contract))
  {
    if killed && OpensExposure(sig.direction) {
      return None;
    }
    var d := engine.ProcessSignal(sig, acct, mk);
    if !d.Placed? {
      return None;
    }
    var order := new PendingOrder(d.order);
    var req := Request(sig.direction, sig.contract, st);
    var rc := BuildRiskContext(s, Gate(cat), sig.direction, sig.contract, order.size);
    var stratV;
    stratV, rc := EvaluateStrategyRisk(cat, req, order, rc, s, later);
    if stratV.Reject? {
      return None;
    }
    var v := Evaluate(cat.global, rc);
    if v.Reject? {
      return None;
    }
    if v.Reduce? {
      order.size := Exact(v.size);
    }
    sent := Some(order);
  }

  // ---------------------------------------------------------------- which orders enlarge a position

  /** The signed position once `z` contracts of an order in this direction have filled. */
  function EndsAt(position: Option<Position>, dir: Direction, z: real): real {
    AfterFill(Signed(position), if dir == Long then Buy else Sell, z)
  }

  /** A decided entry order is on the side of its signal's direction. */
  lemma DecidedEndsAt(sig: Signal, acct: Account, mk: Market, divisor: int, z: real)
    requires Decide(sig, acct, mk, divisor).Placed? && sig.direction != Flat
    ensures AfterFill(Signed(acct.position), Decide(sig, acct, mk, divisor).order.side, z) == EndsAt(acct.position, sig.direction, z)
  {
  }

  /** No position of positive size, or one on the direction's own side. */
  predicate GoesWith(position: Option<Position>, dir: Direction) {
    dir != Flat && (position.None? || SizeOrZero(position.value.size) <= 0.0 || position.value.long == (dir == Long))
  }

  /** Whatever part of an order in this direction fills leaves a larger position. */
  ghost predicate Enlarges(position: Option<Position>, dir: Direction) {
    forall z: real {:trigger EndsAt(position, dir, z)} :: z > 0.0 ==> Abs(EndsAt(position, dir, z)) > Abs(Signed(position))
  }

  lemma EnlargesIff(position: Option<Position>, dir: Direction)
    requires dir != Flat && (position.Some? ==> SizeOrZero(position.value.size) >= 0.0)
    ensures Enlarges(position, dir) <==> GoesWith(position, dir)
  {
    if !GoesWith(position, dir) {
      var z := SizeOrZero(position.value.size);
      assert EndsAt(position, dir, z) == 0.0;
    }
  }

  /** A ready account's context counts an order as increasing exactly if every fill of it enlarges the position. */
  lemma IncreasingIff(s: Snapshot, needs: bool -> bool, dir: Direction, contract: string, size: Size)
    requires s.ready
    ensures var p := Find(s.positions, contract); var c := Build(s, needs, dir, contract, size);
      && (c.increasing <==> GoesWith(p, dir))
      && (dir != Flat && (p.Some? ==> SizeOrZero(p.value.size) >= 0.0) ==> (c.increasing <==> Enlarges(p, dir)))
  {
    var p := Find(s.positions, contract);
    if dir != Flat && (p.Some? ==> SizeOrZero(p.value.size) >= 0.0) { EnlargesIff(p, dir); }
  }

  /** The position a contract's order meets. */
  function PositionIn(s: Snapshot, contract: string): Option<Position> {
    Find(s.positions, contract)
  }

  /** Enabled rules let nothing open a position on an account that is not ready. */
  lemma AdmittedIncreases(r: Rules, s: Snapshot, needs: bool -> bool, dir: Direction, contract: string, size: Size,
                          openOrders: int, positions: int)
    requires r.enable && !Evaluate(r, Scoped(Build(s, needs, dir, contract, size), openOrders, positions)).Reject?
    requires GoesWith(PositionIn(s, contract), dir)
    ensures s.ready && Build(s, needs, dir, contract, size).increasing
  {
    if s.ready { IncreasingIff(s, needs, dir, contract, size); }
  }

  // ---------------------------------------------------------------- what gets through

  predicate LimitsNonNegative(cat: Catalog, st: Strategy) {
    cat.global.maxOrderSize >= 0.0 && (Overrules(st) ==> MergedRules(cat, st).maxOrderSize >= 0.0)
  }

  /** The context's order is the one in the order. */
  lemma TierContextSize(cat: Catalog, req: Request, size: Size, s: Snapshot, later: Snapshot)
    ensures var t := StrategyTier(cat, req, size, s, later); t.context.orderSize == t.size
  {
    var t := StrategyTier(cat, req, size, s, later);
    BuildKeepsSize(s, Gate(cat), req.dir, req.contract, size);
    BuildKeepsSize(later, Gate(cat), req.dir, req.contract, t.size);
  }

  /** The strategy tier lets a positive size through that is no larger and within its rules' order-size limit. */
  lemma StrategyTierShrinks(cat: Catalog, req: Request, size: Size, s: Snapshot, later: Snapshot)
    requires cat.global.enable && LimitsNonNegative(cat, req.strategy) && Overrules(req.strategy)
    requires !StrategyTier(cat, req, size, s, later).verdict.Reject?
    ensures var t, limit := StrategyTier(cat, req, size, s, later), MergedRules(cat, req.strategy).maxOrderSize;
      size.Exact? && t.size.Exact? && 0.0 < t.size.value <= size.value && (limit > 0.0 ==> t.size.value <= limit)
  {
    var base := Build(s, Gate(cat), req.dir, req.contract, size);
    VerdictShrinks(MergedRules(cat, req.strategy),
                   Scoped(base, req.strategy.openOrders, PositionCount(s, req.strategy.symbols)));
  }

  /**
   * Whatever leaves the dispatcher is positive, no larger than decided, and within the order-size
   * limits of the global rules and of the strategy's own.
   */
  lemma SentWithinLimits(cat: Catalog, req: Request, size: Size, s: Snapshot, later: Snapshot)
    requires cat.global.enable && LimitsNonNegative(cat, req.strategy)
    requires Sent(cat, req, size, s, later).Some?
    ensures var z := Sent(cat, req, size, s, later).value;
      && size.Exact? && z.Exact? && 0.0 < z.value <= size.value
      && (cat.global.maxOrderSize > 0.0 ==> z.value <= cat.global.maxOrderSize)
      && (Overrules(req.strategy) && MergedRules(cat, req.strategy).maxOrderSize > 0.0 ==>
            z.value <= MergedRules(cat, req.strategy).maxOrderSize)
  {
    var t := StrategyTier(cat, req, size, s, later);
    TierContextSize(cat, req, size, s, later);
    VerdictShrinks(cat.global, t.context);
    if Overrules(req.strategy) {
      StrategyTierShrinks(cat, req, size, s, later);
    }
  }

  /** What an account must show for these rules to let an order through, position cap and leverage aside. */
  predicate MeetsLimits(r: Rules, s: Snapshot, dir: Direction, openOrders: int, positions: int) {
    && (r.maxOpenOrders > 0 ==> openOrders < r.maxOpenOrders)
    && (dir != Flat ==>
          && s.ready && !r.positionLock && s.equity.Some? && s.equity.value > 0.0
          && (r.maxDailyLoss > 0.0 ==> s.dailyLoss < r.maxDailyLoss)
          && (r.maxDrawdown > 0.0 ==> s.drawdown < r.maxDrawdown)
          && (r.maxPositions > 0 ==> positions < r.maxPositions))
  }

  lemma AdmittedMeets(r: Rules, s: Snapshot, needs: bool -> bool, dir: Direction, contract: string, size: Size,
                      openOrders: int, positions: int)
    requires r.enable && !Evaluate(r, Scoped(Build(s, needs, dir, contract, size), openOrders, positions)).Reject?
    requires s.ready ==> positions >= 0
    ensures MeetsLimits(r, s, dir, openOrders, positions)
  {
    BuildSees(s, needs, dir, contract, size);
    RejectedIff(r, Scoped(Build(s, needs, dir, contract, size), openOrders, positions));
  }

  /**
   * Whatever leaves the dispatcher meets the global limits on the account's own counts and, if the
   * strategy overrides any, the merged ones on the strategy's counts.
   */
  lemma SentMeetsLimits(cat: Catalog, req: Request, size: Size, s: Snapshot, later: Snapshot)
    requires cat.global.enable && Sent(cat, req, size, s, later).Some?
    ensures var f := FinalSnapshot(cat, req, size, s, later); MeetsLimits(cat.global, f, req.dir, f.openOrders, |f.positions|)
    ensures Overrules(req.strategy) ==>
      MeetsLimits(MergedRules(cat, req.strategy), s, req.dir, req.strategy.openOrders, |HeldBy(s.positions, req.strategy.symbols)|)
  {
    var f, t := FinalSnapshot(cat, req, size, s, later), StrategyTier(cat, req, size, s, later);
    BuildSees(f, Gate(cat), req.dir, req.contract, t.size);
    AdmittedMeets(cat.global, f, Gate(cat), req.dir, req.contract, t.size, t.context.openOrders, t.context.positions);
    if Overrules(req.strategy) {
      AdmittedMeets(MergedRules(cat, req.strategy), s, Gate(cat), req.dir, req.contract, size,
                    req.strategy.openOrders, PositionCount(s, req.strategy.symbols));
    }
  }

  /** The positions counted for a strategy: those of positive size in a contract it lists, blanks aside. */
  lemma CountedPositions(positions: seq<Position>, symbols: seq<string>, i: int)
    ensures i in HeldBy(positions, symbols) <==>
      && 0 <= i < |positions| && positions[i].size.Exact? && positions[i].size.value > 0.0
      && exists k :: 0 <= k < |symbols| && Strings.TrimSpace(symbols[k]) == positions[i].contract != ""
  {
    if 0 <= i < |positions| {
      if k :| 0 <= k < |symbols| && Strings.TrimSpace(symbols[k]) == positions[i].contract != "" {
        assert symbols[k] in symbols;
      }
    }
  }

  /** The snapshot behind the context of the final verdict. */
  function FinalSnapshot(cat: Catalog, req: Request, size: Size, s: Snapshot, later: Snapshot): Snapshot {
    if StrategyTier(cat, req, size, s, later).verdict.Reduce? then later else s
  }

  /** A position of notional `held` and `z` more contracts stay within the cap, up to the divisions' rounding. */
  predicate Capped(cap: real, held: real, unit: real, z: real) {
    held + z * unit <= cap + HALF_ULP * (Round16(unit) + z)
  }

  lemma AllowedCapped(cap: real, c: Context, unit: real)
    requires WithinCap(cap, c) && Projects(c, unit) && c.orderSize.value > 0.0 && unit > 0.0
    ensures Capped(cap, c.positionNotional, unit, c.orderSize.value)
  {
    RoundMonotone(0.0, unit);
    RoundWhole(0);
  }

  /** `z` contracts at this price fill the room under the cap, up to the division's rounding. */
  predicate FitsRoom(cap: real, held: real, perUnit: real, z: real) {
    z > 0.0 && z * perUnit <= cap - held + HALF_ULP * perUnit
  }

  lemma ReductionFits(r: Rules, c: Context)
    requires Evaluate(r, c).Reduce? && Evaluate(r, c).code == MaxPositionSize
    ensures FitsRoom(r.maxPositionSize, c.positionNotional, c.perUnit, Evaluate(r, c).size)
  {
    PositionReductionIsLargest(r, c);
  }

  lemma ReducedCapped(cap: real, held: real, unit: real, perUnit: real, z: real)
    requires unit > 0.0 && perUnit == Round16(unit) && FitsRoom(cap, held, perUnit, z)
    ensures Capped(cap, held, unit, z)
  {
    RoundError(unit);
    Overshoot(cap - held, z, unit, perUnit, HALF_ULP);
  }

  /** The final context of an increasing order under a global cap has its notional values. */
  lemma FinalContextLinear(cat: Catalog, req: Request, size: Size, s: Snapshot, later: Snapshot)
    requires cat.global.maxPositionSize > 0.0
    requires var c := StrategyTier(cat, req, size, s, later).context; c.increasing && c.available
    ensures Linear(FinalSnapshot(cat, req, size, s, later), req.contract, StrategyTier(cat, req, size, s, later).context)
  {
    assert Gate(cat)(true);
    var t := StrategyTier(cat, req, size, s, later);
    BuildProjects(FinalSnapshot(cat, req, size, s, later), Gate(cat), req.dir, req.contract, t.size);
  }

  /** The order-size limit cuts an order of this size down. */
  predicate Cuts(limit: real, size: real) {
    limit != 0.0 && size > limit
  }

  function Cut(limit: real, size: real): real {
    if Cuts(limit, size) then limit else size
  }

  /** An increasing order that is not rejected has a context with notional values if a cap is set and no limit cuts it. */
  lemma CapNeedsNotional(r: Rules, c: Context)
    requires r.enable && c.increasing && r.maxPositionSize > 0.0 && !Evaluate(r, c).Reject?
    requires !Cuts(r.maxOrderSize, SizeOrZero(c.orderSize))
    ensures c.available
  {
  }

  /** The verdict's size, under the cap. */
  lemma VerdictCapped(r: Rules, c: Context, unit: real)
    requires r.enable && c.increasing && r.maxPositionSize > 0.0 && !Evaluate(r, c).Reject?
    requires !Cuts(r.maxOrderSize, SizeOrZero(c.orderSize))
    requires unit > 0.0 && Projects(c, unit)
    ensures var v := Evaluate(r, c);
      Capped(r.maxPositionSize, c.positionNotional, unit, if v.Reduce? then v.size else c.orderSize.value)
  {
    if Evaluate(r, c).Reduce? {
      ReductionFits(r, c);
      ReducedCapped(r.maxPositionSize, c.positionNotional, unit, c.perUnit, Evaluate(r, c).size);
    } else {
      AllowedWithinCap(r, c, unit);
      AllowedCapped(r.maxPositionSize, c, unit);
    }
  }

  lemma FinalIncreases(cat: Catalog, req: Request, size: Size, s: Snapshot, later: Snapshot)
    requires cat.global.enable && Sent(cat, req, size, s, later).Some?
    requires GoesWith(PositionIn(FinalSnapshot(cat, req, size, s, later), req.contract), req.dir)
    ensures StrategyTier(cat, req, size, s, later).context.increasing
  {
    var t := StrategyTier(cat, req, size, s, later);
    AdmittedIncreases(cat.global, FinalSnapshot(cat, req, size, s, later), Gate(cat), req.dir, req.contract, t.size,
                      t.context.openOrders, t.context.positions);
  }

  /**
   * An order in the direction of the position held, or with none, keeps the position within the global cap
   * (up to the divisions' rounding) if it leaves the dispatcher, provided the order-size limit does
   * not cut what the strategy tier left.
   */
  lemma SentWithinCap(cat: Catalog, req: Request, size: Size, s: Snapshot, later: Snapshot)
    requires cat.global.enable && cat.global.maxPositionSize > 0.0
    requires Sent(cat, req, size, s, later).Some?
    requires GoesWith(PositionIn(FinalSnapshot(cat, req, size, s, later), req.contract), req.dir)
    requires !Cuts(cat.global.maxOrderSize, SizeOrZero(StrategyTier(cat, req, size, s, later).size))
    ensures var f, z := FinalSnapshot(cat, req, size, s, later), Sent(cat, req, size, s, later).value;
      var u, held := OrderUnit(f, req.contract), HeldNotional(f, req.contract);
      && u.Some? && held.Some? && z.Exact?
      && Capped(cat.global.maxPositionSize, held.value, u.value, z.value)
  {
    var t := StrategyTier(cat, req, size, s, later);
    TierContextSize(cat, req, size, s, later);
    FinalIncreases(cat, req, size, s, later);
    CapNeedsNotional(cat.global, t.context);
    FinalContextLinear(cat, req, size, s, later);
    VerdictCapped(cat.global, t.context, OrderUnit(FinalSnapshot(cat, req, size, s, later), req.contract).value);
  }

  lemma CutOrderIsLimit(cat: Catalog, req: Request, size: Size, s: Snapshot, later: Snapshot)
    requires cat.global.enable && Sent(cat, req, size, s, later).Some?
    requires Cuts(cat.global.maxOrderSize, SizeOrZero(StrategyTier(cat, req, size, s, later).size))
    ensures var z := Sent(cat, req, size, s, later).value; z.Exact? && z.value == cat.global.maxOrderSize
  {
    TierContextSize(cat, req, size, s, later);
  }

  /**
   * The other orders: one the limit cuts is sent with exactly the limit, whatever the cap, and so
   * respects the cap if and only if that many contracts fit under it.
   */
  lemma CutOrderWithinCapIff(cat: Catalog, req: Request, size: Size, s: Snapshot, later: Snapshot, held: real, unit: real)
    requires cat.global.enable && Sent(cat, req, size, s, later).Some?
    requires Cuts(cat.global.maxOrderSize, SizeOrZero(StrategyTier(cat, req, size, s, later).size))
    ensures var z := Sent(cat, req, size, s, later).value;
      && z.Exact? && z.value == cat.global.maxOrderSize
      && (StaysUnder(cat.global.maxPositionSize, held, unit, z.value) <==>
          held + cat.global.maxOrderSize * unit <= cat.global.maxPositionSize)
  {
    CutOrderIsLimit(cat, req, size, s, later);
  }

  /** An account with equity and these positions, in contracts worth ten each. */
  function Tens(positions: seq<Position>): Snapshot {
    Snapshot(true, positions, Some(1000.0), 0, 0.0, 0.0, _ => Quote(Some(1.0), Some(Ticker(Quoted(10.0), Absent))))
  }

  lemma TensContext(needs: bool -> bool, size: real)
    requires needs(true) && size > 0.0 && size * 10.0 / size == 10.0
    ensures var c := Build(Tens([]), needs, Long, "BTC_USDT", Exact(size));
      && c.orderSize == Exact(size) && c.opens && c.ready && c.increasing && c.available && c.equity == 1000.0
      && c.positionNotional == 0.0 && c.postPosition == size * 10.0 && c.perUnit == 10.0
  {
    RoundWhole(10);
  }

  /**
   * Such a run: in contracts worth ten, under a cap of ten and a limit of five contracts, an order of
   * nine is sent with five contracts, while an order of those five is sent with the one that fits.
   */
  lemma CutOrderPassesCap()
    ensures var r := Rules(true, 5.0, 0, 0, 10.0, 0.0, 0.0, 0, false);
      var cat, req := Catalog(r, []), Request(Long, "BTC_USDT", Strategy(None, ["BTC_USDT"], 0));
      && Sent(cat, req, Exact(9.0), Tens([]), Tens([])) == Some(Exact(5.0))
      && Sent(cat, req, Exact(5.0), Tens([]), Tens([])) == Some(Exact(1.0))
      && !StaysUnder(r.maxPositionSize, 0.0, 10.0, 5.0)
  {
    var r := Rules(true, 5.0, 0, 0, 10.0, 0.0, 0.0, 0, false);
    TensContext(Gate(Catalog(r, [])), 9.0);
    TensContext(Gate(Catalog(r, [])), 5.0);
    RoundWhole(1);
    assert AllowedQty(10.0, 0.0, 10.0) == 1.0;
  }

  // ---------------------------------------------------------------- the strategy's own cap

  /** The strategy is one of the catalog's, so the gate reads its rules. */
  predicate Registered(cat: Catalog, st: Strategy) {
    st.overrides in cat.overrides
  }

  lemma RegisteredInForce(cat: Catalog, st: Strategy)
    requires Registered(cat, st) && Overrules(st)
    ensures InForce(MergedRules(cat, st), cat.global, cat.overrides)
  {
    var i :| 0 <= i < |cat.overrides| && cat.overrides[i] == st.overrides;
    assert cat.overrides[i].Some? && HasEffectiveOverrides(cat.overrides[i].value);
  }

  /** The context the strategy's rules see. */
  function ScopedBase(cat: Catalog, req: Request, size: Size, s: Snapshot): Context {
    Scoped(Build(s, Gate(cat), req.dir, req.contract, size), req.strategy.openOrders, PositionCount(s, req.strategy.symbols))
  }

  lemma CapOpensGate(cat: Catalog, st: Strategy)
    requires Registered(cat, st) && Overrules(st) && MergedRules(cat, st).maxPositionSize > 0.0
    ensures Gate(cat)(true)
  {
    RegisteredInForce(cat, st);
    if !NeedsNotional(cat.global, cat.overrides, true) {
      GateReadsRules(MergedRules(cat, st), cat.global, cat.overrides, true);
    }
  }

  lemma ScopedKeepsLinear(s: Snapshot, contract: string, c: Context, openOrders: int, positions: int)
    requires Linear(s, contract, c)
    ensures Linear(s, contract, Scoped(c, openOrders, positions))
  {
  }

  lemma ScopedLinear(cat: Catalog, req: Request, size: Size, s: Snapshot)
    requires Registered(cat, req.strategy) && Overrules(req.strategy) && MergedRules(cat, req.strategy).maxPositionSize > 0.0
    requires var c := ScopedBase(cat, req, size, s); c.increasing && c.available
    ensures Linear(s, req.contract, ScopedBase(cat, req, size, s))
  {
    CapOpensGate(cat, req.strategy);
    BuildProjects(s, Gate(cat), req.dir, req.contract, size);
    ScopedKeepsLinear(s, req.contract, Build(s, Gate(cat), req.dir, req.contract, size),
                      req.strategy.openOrders, PositionCount(s, req.strategy.symbols));
  }

  /**
   * The strategy tier keeps an order in the position's direction within the strategy's own cap (up to the divisions'
   * rounding), provided the strategy's order-size limit does not cut it, and what is sent is no larger.
   */
  lemma SentWithinStrategyCap(cat: Catalog, req: Request, size: Size, s: Snapshot, later: Snapshot)
    requires cat.global.enable && LimitsNonNegative(cat, req.strategy)
    requires Registered(cat, req.strategy) && Overrules(req.strategy) && MergedRules(cat, req.strategy).maxPositionSize > 0.0
    requires Sent(cat, req, size, s, later).Some? && GoesWith(PositionIn(s, req.contract), req.dir)
    requires !Cuts(MergedRules(cat, req.strategy).maxOrderSize, SizeOrZero(size))
    ensures var t, z := StrategyTier(cat, req, size, s, later).size, Sent(cat, req, size, s, later).value;
      var u, held := OrderUnit(s, req.contract), HeldNotional(s, req.contract);
      && u.Some? && held.Some? && t.Exact? && z.Exact? && 0.0 < z.value <= t.value
      && Capped(MergedRules(cat, req.strategy).maxPositionSize, held.value, u.value, t.value)
  {
    var r, c := MergedRules(cat, req.strategy), ScopedBase(cat, req, size, s);
    AdmittedIncreases(r, s, Gate(cat), req.dir, req.contract, size, req.strategy.openOrders, PositionCount(s, req.strategy.symbols));
    BuildKeepsSize(s, Gate(cat), req.dir, req.contract, size);
    CapNeedsNotional(r, c);
    ScopedLinear(cat, req, size, s);
    VerdictCapped(r, c, OrderUnit(s, req.contract).value);
    TierContextSize(cat, req, size, s, later);
    VerdictShrinks(cat.global, StrategyTier(cat, req, size, s, later).context);
  }

  /**
   * An order the strategy's limit cuts leaves the strategy tier with exactly the limit, and respects
   * the strategy's cap if and only if that many contracts fit under it.
   */
  lemma StrategyCutWithinCapIff(cat: Catalog, req: Request, size: Size, s: Snapshot, later: Snapshot, held: real, unit: real)
    requires cat.global.enable && Overrules(req.strategy) && !StrategyTier(cat, req, size, s, later).verdict.Reject?
    requires Cuts(MergedRules(cat, req.strategy).maxOrderSize, SizeOrZero(size))
    ensures var r, t := MergedRules(cat, req.strategy), StrategyTier(cat, req, size, s, later).size;
      && t.Exact? && t.value == r.maxOrderSize
      && (StaysUnder(r.maxPositionSize, held, unit, t.value) <==> held + r.maxOrderSize * unit <= r.maxPositionSize)
  {
    BuildKeepsSize(s, Gate(cat), req.dir, req.contract, size);
    assert ScopedBase(cat, req, size, s).orderSize == size;
  }

  /**
   * Such a run: under a strategy's cap of ten and limit of five contracts worth ten each, an order of
   * nine is sent with five contracts, while an order of those five is sent with the one that fits.
   */
  lemma StrategyCutPassesCap()
    ensures var o := Overrides(Some(5.0), None, None, Some(10.0), None, None, None, None);
      var st := Strategy(Some(o), ["BTC_USDT"], 0);
      var cat, req := Catalog(Rules(true, 0.0, 0, 0, 0.0, 0.0, 0.0, 0, false), [Some(o)]), Request(Long, "BTC_USDT", st);
      && Registered(cat, st)
      && Sent(cat, req, Exact(9.0), Tens([]), Tens([])) == Some(Exact(5.0))
      && Sent(cat, req, Exact(5.0), Tens([]), Tens([])) == Some(Exact(1.0))
      && !StaysUnder(MergedRules(cat, st).maxPositionSize, 0.0, 10.0, 5.0)
  {
    var o := Overrides(Some(5.0), None, None, Some(10.0), None, None, None, None);
    var st := Strategy(Some(o), ["BTC_USDT"], 0);
    var cat := Catalog(Rules(true, 0.0, 0, 0, 0.0, 0.0, 0.0, 0, false), [Some(o)]);
    assert cat.overrides[0] == Some(o);
    CapOpensGate(cat, st);
    TensContext(Gate(cat), 9.0);
    TensContext(Gate(cat), 5.0);
    RoundWhole(1);
    assert AllowedQty(10.0, 0.0, 10.0) == 1.0;
  }

  // ---------------------------------------------------------------- lazy and eager notional values

  lemma GlobalLazy(cat: Catalog, always: bool -> bool, s: Snapshot, req: Request, size: Size)
    requires forall inc :: always(inc)
    ensures Evaluate(cat.global, Build(s, Gate(cat), req.dir, req.contract, size))
         == Evaluate(cat.global, Build(s, always, req.dir, req.contract, size))
  {
    var c := Build(s, Gate(cat), req.dir, req.contract, size);
    GatesDiffer(s, Gate(cat), always, req.dir, req.contract, size);
    LazyGateEqualsEager(cat.global, cat.global, cat.overrides, s, req.dir, req.contract, size, c.openOrders, c.positions,
                        Gate(cat), always);
  }

  /** The strategy tier comes to the same verdict and size, with contexts built of the same snapshot. */
  lemma TierLazy(cat: Catalog, always: bool -> bool, req: Request, size: Size, s: Snapshot, later: Snapshot)
    requires forall inc :: always(inc)
    requires Overrules(req.strategy) ==> Registered(cat, req.strategy)
    ensures var t, u := StrategyTier(cat, req, size, s, later), TierWith(cat, always, req, size, s, later);
      var f := FinalSnapshot(cat, req, size, s, later);
      && u.verdict == t.verdict && u.size == t.size
      && t.context == Build(f, Gate(cat), req.dir, req.contract, t.size) && u.context == Build(f, always, req.dir, req.contract, t.size)
  {
    if Overrules(req.strategy) {
      RegisteredInForce(cat, req.strategy);
      LazyGateEqualsEager(MergedRules(cat, req.strategy), cat.global, cat.overrides, s, req.dir, req.contract, size,
                          req.strategy.openOrders, PositionCount(s, req.strategy.symbols), Gate(cat), always);
    }
  }

  /**
   * Both tiers together send the same whether notional values are computed only when the gate asks
   * for them or always, in the first context and in the one rebuilt after a strategy reduction.
   */
  lemma LazySentEqualsEager(cat: Catalog, always: bool -> bool, req: Request, size: Size, s: Snapshot, later: Snapshot)
    requires forall inc :: always(inc)
    requires Overrules(req.strategy) ==> Registered(cat, req.strategy)
    ensures Sent(cat, req, size, s, later) == AfterGlobal(cat.global, TierWith(cat, always, req, size, s, later))
  {
    TierLazy(cat, always, req, size, s, later);
    GlobalLazy(cat, always, FinalSnapshot(cat, req, size, s, later), req, StrategyTier(cat, req, size, s, later).size);
  }

  // ---------------------------------------------------------------- reversals

  /** The order goes against a position of positive size. */
  predicate Reverses(s: Snapshot, dir: Direction, contract: string) {
    var p := Find(s.positions, contract);
    dir != Flat && p.Some? && SizeOrZero(p.value.size) > 0.0 && p.value.long == (dir == Short)
  }

  /** The cap does not see an order against the position, however far it goes through zero. */
  lemma ReversalUncapped(r: Rules, s: Snapshot, needs: bool -> bool, dir: Direction, contract: string, size: Size, cap: real)
    requires var p := Find(s.positions, contract); p.Some? && SizeOrZero(p.value.size) > 0.0 && p.value.long == (dir == Short)
    ensures var c := Build(s, needs, dir, contract, size); Evaluate(r, c) == Evaluate(r.(maxPositionSize := cap), c)
  {
    assert !IsIncreasing(dir, Find(s.positions, contract));
  }

  /** What the two order-size limits leave of an order. */
  function CutByLimits(cat: Catalog, st: Strategy, size: real): real {
    Cut(cat.global.maxOrderSize, if Overrules(st) then Cut(MergedRules(cat, st).maxOrderSize, size) else size)
  }

  /** Rules that do not reject an order that increases nothing leave what their limit leaves. */
  lemma OnlyTheLimitCuts(r: Rules, c: Context)
    requires r.enable && !c.increasing && !Evaluate(r, c).Reject?
    ensures c.orderSize.Exact?
    ensures (if Evaluate(r, c).Reduce? then Evaluate(r, c).size else c.orderSize.value) == Cut(r.maxOrderSize, c.orderSize.value)
  {
  }

  lemma TierReversal(cat: Catalog, req: Request, size: Size, s: Snapshot, later: Snapshot)
    requires cat.global.enable && Overrules(req.strategy) && !StrategyTier(cat, req, size, s, later).verdict.Reject?
    requires Reverses(s, req.dir, req.contract)
    ensures var t := StrategyTier(cat, req, size, s, later);
      size.Exact? && t.size.Exact? && t.size.value == Cut(MergedRules(cat, req.strategy).maxOrderSize, size.value)
  {
    var base := Build(s, Gate(cat), req.dir, req.contract, size);
    BuildKeepsSize(s, Gate(cat), req.dir, req.contract, size);
    OnlyTheLimitCuts(MergedRules(cat, req.strategy),
                     Scoped(base, req.strategy.openOrders, PositionCount(s, req.strategy.symbols)));
  }

  lemma ReversalNotIncreasing(s: Snapshot, needs: bool -> bool, dir: Direction, contract: string, size: Size)
    requires Reverses(s, dir, contract)
    ensures !Build(s, needs, dir, contract, size).increasing
  {
  }

  lemma TierNotIncreasing(cat: Catalog, req: Request, size: Size, s: Snapshot, later: Snapshot)
    requires Reverses(s, req.dir, req.contract) && Reverses(FinalSnapshot(cat, req, size, s, later), req.dir, req.contract)
    ensures !StrategyTier(cat, req, size, s, later).context.increasing
  {
    var t := StrategyTier(cat, req, size, s, later);
    ReversalNotIncreasing(FinalSnapshot(cat, req, size, s, later), Gate(cat), req.dir, req.contract, t.size);
  }

  lemma SentReversal(cat: Catalog, req: Request, size: Size, s: Snapshot, later: Snapshot)
    requires cat.global.enable && Sent(cat, req, size, s, later).Some?
    requires Reverses(s, req.dir, req.contract) && Reverses(FinalSnapshot(cat, req, size, s, later), req.dir, req.contract)
    ensures var z := Sent(cat, req, size, s, later).value; size.Exact? && z.Exact? && z.value == CutByLimits(cat, req.strategy, size.value)
  {
    TierContextSize(cat, req, size, s, later);
    TierNotIncreasing(cat, req, size, s, later);
    OnlyTheLimitCuts(cat.global, StrategyTier(cat, req, size, s, later).context);
    if Overrules(req.strategy) { TierReversal(cat, req, size, s, later); }
  }

  /** A signed position in the order's direction whose notional is over the cap. */
  predicate OverCap(cap: real, dir: Direction, signed: real, unit: real) {
    (if dir == Long then signed > 0.0 else signed < 0.0) && Abs(signed) * unit > cap
  }

  lemma NegativeProduct(a: real, unit: real)
    requires a <= 0.0 && unit > 0.0
    ensures a * unit <= 0.0
  {
  }

  /** `z` contracts in this direction put the position over the cap once filled. */
  predicate Oversteps(s: Snapshot, dir: Direction, contract: string, z: real, unit: real, cap: real) {
    OverCap(cap, dir, EndsAt(Find(s.positions, contract), dir, z), unit)
  }

  /** What `z` contracts have beyond the position is worth more than the cap. */
  predicate WorthMore(s: Snapshot, contract: string, z: real, unit: real, cap: real) {
    var p := Find(s.positions, contract);
    (z - (if p.Some? then SizeOrZero(p.value.size) else 0.0)) * unit > cap
  }

  lemma EndsBeyond(s: Snapshot, dir: Direction, contract: string, z: real, unit: real, cap: real)
    requires Reverses(s, dir, contract) && unit > 0.0 && cap >= 0.0
    ensures Oversteps(s, dir, contract, z, unit, cap) <==> WorthMore(s, contract, z, unit, cap)
  {
    var p := Find(s.positions, contract);
    var beyond := z - SizeOrZero(p.value.size);
    assert EndsAt(p, dir, z) == if dir == Long then beyond else -beyond;
    if beyond <= 0.0 { NegativeProduct(beyond, unit); }
  }

  /**
   * A sent reversal carries what the order-size limits leave of the decided size, and once filled
   * puts the position over the cap on the other side if and only if what that size has beyond the old
   * position is worth more than the cap.
   */
  lemma ReversalOverCapIff(cat: Catalog, req: Request, size: Size, s: Snapshot, later: Snapshot, unit: real, cap: real)
    requires cat.global.enable && Sent(cat, req, size, s, later).Some? && unit > 0.0 && cap >= 0.0
    requires Reverses(s, req.dir, req.contract) && Reverses(FinalSnapshot(cat, req, size, s, later), req.dir, req.contract)
    ensures size.Exact? && Sent(cat, req, size, s, later).value.Exact?
    ensures var f, z := FinalSnapshot(cat, req, size, s, later), Sent(cat, req, size, s, later).value.value;
      Oversteps(f, req.dir, req.contract, z, unit, cap) <==>
      WorthMore(f, req.contract, CutByLimits(cat, req.strategy, size.value), unit, cap)
  {
    var f := FinalSnapshot(cat, req, size, s, later);
    SentReversal(cat, req, size, s, later);
    EndsBeyond(f, req.dir, req.contract, Sent(cat, req, size, s, later).value.value, unit, cap);
  }

  /** Such a run: under a cap of ten, short one contract worth ten, an order to buy five is sent whole. */
  lemma ReversalPassesCap()
    ensures var r := Rules(true, 0.0, 0, 0, 10.0, 0.0, 0.0, 0, false);
      var cat, req := Catalog(r, []), Request(Long, "BTC_USDT", Strategy(None, ["BTC_USDT"], 0));
      var p := Position("BTC_USDT", false, Exact(1.0), None);
      && Sent(cat, req, Exact(5.0), Tens([p]), Tens([p])) == Some(Exact(5.0))
      && OverCap(r.maxPositionSize, Long, EndsAt(Some(p), Long, 5.0), 10.0)
  {
  }

  // ---------------------------------------------------------------- closing

  /**
   * A Flat signal never flips a position: the order it sends is on the opposite side, and however
   * much of it fills, the signed position ends between zero and where it was.
   */
  lemma FlatNeverFlips(cat: Catalog, sig: Signal, st: Strategy, acct: Account, mk: Market, divisor: int,
                       s: Snapshot, later: Snapshot, filled: real)
    requires cat.global.enable && LimitsNonNegative(cat, st)
    requires sig.direction == Flat && Decide(sig, acct, mk, divisor).Placed?
    requires var z := Sent(cat, Request(Flat, sig.contract, st), Exact(Decide(sig, acct, mk, divisor).order.size), s, later);
      z.Some? && (z.value.Exact? ==> 0.0 <= filled <= z.value.value)
    ensures var o := Decide(sig, acct, mk, divisor).order;
      && acct.position.Some? && o.side == (if acct.position.value.long then Sell else Buy)
      && Towards(AfterFill(Signed(acct.position), o.side, filled), Signed(acct.position))
  {
    var o := Decide(sig, acct, mk, divisor).order;
    SentWithinLimits(cat, Request(Flat, sig.contract, st), Exact(o.size), s, later);
    FlatOrderCloses(sig, acct, mk, divisor, filled);
    PositiveFlatSize(sig, acct, mk, divisor);
  }

  /** A closing order of positive size closes a position of positive size. */
  lemma PositiveFlatSize(sig: Signal, acct: Account, mk: Market, divisor: int)
    requires sig.direction == Flat && Decide(sig, acct, mk, divisor).Placed? && Decide(sig, acct, mk, divisor).order.size > 0.0
    ensures acct.position.Some? && SizeOrZero(acct.position.value.size) > 0.0
  {
  }
}
