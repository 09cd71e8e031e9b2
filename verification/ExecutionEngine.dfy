/** The order engine's command handlers, each tied to the protocol's transition for it. */
module ExecutionEngine {
  import opened Wrappers
  import opened Orders
  import opened OmsProtocol

  datatype Reply =
    | Ok | NilOrder | DuplicateId | NotFound | TerminalStatus | NoExecutor | Invalid | ContextEnded | ExchangeFailed | StoreFailed

  /** What a Sync call returns. */
  datatype SyncReply = SyncFailed | NoEvent | Snapshot(report: Report)

  /** What an attempt meets: the run's context has ended before its Place call, or the call fails or gives an exchange ID. */
  datatype Answer = Ended | Refused | Got(exchangeId: string)

  type Answers = nat -> Answer

  // ---------------------------------------------------------------- submitting, as a function

  /** The attempt the loop stops at, or maxRetries + 1 if every Place call fails. */
  function StopsAt(answers: Answers, attempt: nat, maxRetries: nat): (k: nat)
    requires attempt <= maxRetries + 1
    ensures attempt <= k <= maxRetries + 1
    ensures forall j :: attempt <= j < k ==> answers(j).Refused?
    ensures k <= maxRetries ==> !answers(k).Refused?
    decreases maxRetries + 1 - attempt
  {
    if attempt == maxRetries + 1 || !answers(attempt).Refused? then attempt else StopsAt(answers, attempt + 1, maxRetries)
  }

  /** The counters after `n` Place calls from `attempt` on; the very first call is not a retry. */
  function Tried(st: Stats, id: string, attempt: nat, n: int): Stats {
    st.(places := if n <= 0 then st.places else st.places[id := Count(st.places, id) + n],
        retries := st.retries + if n <= 0 then 0 else if attempt == 0 then n - 1 else n)
  }

  /** What the Place calls yield: the first exchange ID, or none. */
  function FirstId(answers: Answers, attempt: nat, maxRetries: nat): Option<string>
    requires attempt <= maxRetries + 1
  {
    var k := StopsAt(answers, attempt, maxRetries);
    if k <= maxRetries && answers(k).Got? then Some(answers(k).exchangeId) else None
  }

  /** How many Place calls, from `attempt` on, are made. */
  function Calls(answers: Answers, attempt: nat, maxRetries: nat): int
    requires attempt <= maxRetries
  {
    var k := StopsAt(answers, attempt, maxRetries);
    (if k <= maxRetries && answers(k).Got? then k + 1 else k) - attempt
  }

  /** How a submit ends. */
  function Ending(e: Engine, id: string, exchangeId: Option<string>, at: int): Engine
    requires id in e.book
  {
    if exchangeId.Some? then Finishing(e, id, exchangeId.value, at) else Rejecting(e, id, at)
  }

  /**
   * The engine after a submit's attempts from `attempt` on: the first exchange ID ends them and is
   * given to the order; an ended context or maxRetries + 1 failures reject it.
   */
  function Outcome(cfg: Config, e: Engine, id: string, answers: Answers, attempt: nat, at: int): Engine
    requires id in e.book && attempt <= cfg.maxRetries
  {
    Ending(e.(stats := Tried(e.stats, id, attempt, Calls(answers, attempt, cfg.maxRetries)), phase := Idle),
           id, FirstId(answers, attempt, cfg.maxRetries), at)
  }

  function SubmitReply(cfg: Config, valid: bool, hasExecutor: bool, answers: Answers): Reply {
    if !valid then Invalid
    else if !hasExecutor then NoExecutor
    else if FirstId(answers, 0, cfg.maxRetries).Some? then Ok
    else if StopsAt(answers, 0, cfg.maxRetries) <= cfg.maxRetries then ContextEnded
    else ExchangeFailed
  }

  /** The same as the protocol takes it: one step for each failure, then the one that ends the submit. */
  function Steps(cfg: Config, e: Engine, id: string, answers: Answers, attempt: nat, at: int): Engine
    requires id in e.book
    decreases cfg.maxRetries - attempt
  {
    match answers(attempt)
    case Got(x) => Finishing(Counted(e, id, attempt), id, x, at)
    case Ended => Rejecting(e, id, at)
    case Refused =>
      if attempt < cfg.maxRetries then Steps(cfg, Failing(cfg, e, id, attempt, at), id, answers, attempt + 1, at)
      else Failing(cfg, e, id, attempt, at)
  }

  lemma TriedOnce(e: Engine, id: string, attempt: nat, n: int)
    requires n >= 0
    ensures Tried(Counted(e, id, attempt).stats, id, attempt + 1, n) == Tried(e.stats, id, attempt, n + 1)
  {
  }

  /** How a submit ends does not depend on the phase it was in. */
  lemma EndingIgnoresPhase(e: Engine, id: string, exchangeId: Option<string>, at: int)
    requires id in e.book
    ensures Ending(e.(phase := Idle), id, exchangeId, at) == Ending(e, id, exchangeId, at)
  {
  }

  /** A failed attempt and `n` calls after it are `n` + 1 calls. */
  lemma OneFailure(cfg: Config, e: Engine, id: string, attempt: nat, at: int, n: int)
    requires id in e.book && attempt < cfg.maxRetries && n >= 0
    ensures var f := Failing(cfg, e, id, attempt, at);
      && f.book == e.book
      && f.(stats := Tried(f.stats, id, attempt + 1, n), phase := Idle) == e.(stats := Tried(e.stats, id, attempt, n + 1), phase := Idle)
  {
    TriedOnce(e, id, attempt, n);
  }

  lemma OneMoreCall(answers: Answers, attempt: nat, maxRetries: nat)
    requires attempt < maxRetries && answers(attempt).Refused?
    ensures Calls(answers, attempt, maxRetries) == Calls(answers, attempt + 1, maxRetries) + 1 > 0
    ensures FirstId(answers, attempt, maxRetries) == FirstId(answers, attempt + 1, maxRetries)
  {
  }

  lemma FailureFirst(cfg: Config, e: Engine, id: string, answers: Answers, attempt: nat, at: int)
    requires id in e.book && attempt < cfg.maxRetries && answers(attempt).Refused?
    ensures Outcome(cfg, Failing(cfg, e, id, attempt, at), id, answers, attempt + 1, at) == Outcome(cfg, e, id, answers, attempt, at)
  {
    OneMoreCall(answers, attempt, cfg.maxRetries);
    OneFailure(cfg, e, id, attempt, at, Calls(answers, attempt + 1, cfg.maxRetries));
  }

  lemma LastAttempt(cfg: Config, e: Engine, id: string, answers: Answers, attempt: nat, at: int)
    requires id in e.book && attempt <= cfg.maxRetries && (!answers(attempt).Refused? || attempt == cfg.maxRetries)
    ensures Outcome(cfg, e, id, answers, attempt, at) == Steps(cfg, e, id, answers, attempt, at)
  {
    assert e.(stats := Tried(e.stats, id, attempt, 1)) == Counted(e, id, attempt);
    assert e.(stats := Tried(e.stats, id, attempt, 0)) == e;
    EndingIgnoresPhase(if answers(attempt).Ended? then e else Counted(e, id, attempt), id, FirstId(answers, attempt, cfg.maxRetries), at);
  }

  /** The retry loop's outcome is what the protocol's steps arrive at. */
  lemma {:induction false} OutcomeIsProtocolSteps(cfg: Config, e: Engine, id: string, answers: Answers, attempt: nat, at: int)
    requires id in e.book && attempt <= cfg.maxRetries
    ensures Outcome(cfg, e, id, answers, attempt, at) == Steps(cfg, e, id, answers, attempt, at)
    decreases cfg.maxRetries - attempt
  {
    if answers(attempt).Refused? && attempt < cfg.maxRetries {
      OutcomeIsProtocolSteps(cfg, Failing(cfg, e, id, attempt, at), id, answers, attempt + 1, at);
      FailureFirst(cfg, e, id, answers, attempt, at);
    } else {
      LastAttempt(cfg, e, id, answers, attempt, at);
    }
  }

  // ---------------------------------------------------------------- how a submit ends

  /** The order as it stands once its submit has ended. */
  function Concluded(o: Order, exchangeId: string, status: Status, acceptedAt: int, at: int): Order {
    Order(o.id, exchangeId, if o.market == Unset then Perp else o.market, o.terms, View(status, o.view.filled), acceptedAt, at)
  }

  /** Memory and, while saves succeed, the store have gained exactly this order, spelt out field by field. */
  predicate Gained(e: Engine, t: Engine, o: Order) {
    && t.book == e.book[o.id := o] && t.up == e.up && t.phase.Idle?
    && (e.up ==>
          && t.table == e.table[o.id := Row(o.id, o.exchangeId, o.terms, o.view, o.createdAt, o.updatedAt)]
          && t.stale == e.stale - {o.id})
    && (!e.up ==> t.table == e.table && t.stale == e.stale + {o.id})
  }

  /** The counters after one submit of `calls` Place calls. */
  predicate Tallied(st: Stats, after: Stats, id: string, calls: nat, placed: bool) {
    && after.submitted == st.submitted + 1
    && after.succeeded == st.succeeded + (if placed then 1 else 0)
    && after.rejected == st.rejected + (if placed then 0 else 1)
    && after.failed == st.failed + (if placed then 0 else 1)
    && after.retries == st.retries + (if calls > 0 then calls - 1 else 0)
    && Count(after.places, id) == Count(st.places, id) + calls
    && Replies(after, id) == Replies(st, id) + [if placed then Submitted else Status.Rejected]
  }

  /** Whether every attempt before the `k`-th fails. */
  predicate AllRefused(answers: Answers, k: nat) {
    forall j :: 0 <= j < k ==> answers(j).Refused?
  }

  lemma {:induction false} StopsThere(answers: Answers, attempt: nat, k: nat, maxRetries: nat)
    requires attempt <= k <= maxRetries + 1 && AllRefused(answers, k) && (k <= maxRetries ==> !answers(k).Refused?)
    ensures StopsAt(answers, attempt, maxRetries) == k
    decreases k - attempt
  {
    if attempt < k { StopsThere(answers, attempt + 1, k, maxRetries); }
  }

  lemma ConcludedAfter(e: Engine, o: Order, n: nat, exchangeId: Option<string>, acceptedAt: int, at: int)
    requires o.id !in e.book
    ensures o.id in Accepting(e, o, acceptedAt).book
    ensures var a := Accepting(e, o, acceptedAt);
      var t := Ending(a.(stats := Tried(a.stats, o.id, 0, n), phase := Idle), o.id, exchangeId, at);
      && Gained(e, t, Concluded(o, if exchangeId.Some? then exchangeId.value else o.exchangeId,
                                if exchangeId.Some? then Submitted else Status.Rejected, acceptedAt, at))
      && Tallied(e.stats, t.stats, o.id, n, exchangeId.Some?)
  {
  }

  /** An order whose first successful attempt is the `k`-th ends Submitted with what that attempt returned. */
  lemma SubmitPlaces(cfg: Config, e: Engine, o: Order, answers: Answers, k: nat, acceptedAt: int, at: int)
    requires o.id !in e.book && k <= cfg.maxRetries && AllRefused(answers, k) && answers(k).Got?
    ensures o.id in Accepting(e, o, acceptedAt).book
    ensures var t := Outcome(cfg, Accepting(e, o, acceptedAt), o.id, answers, 0, at);
      && Gained(e, t, Concluded(o, answers(k).exchangeId, Submitted, acceptedAt, at)) && Tallied(e.stats, t.stats, o.id, k + 1, true)
      && SubmitReply(cfg, true, true, answers) == Ok
  {
    StopsThere(answers, 0, k, cfg.maxRetries);
    ConcludedAfter(e, o, k + 1, Some(answers(k).exchangeId), acceptedAt, at);
  }

  /** One whose attempts run out, or meet the end of the context, after `k` failures ends Rejected. */
  lemma SubmitGivesUp(cfg: Config, e: Engine, o: Order, answers: Answers, k: nat, acceptedAt: int, at: int)
    requires o.id !in e.book && AllRefused(answers, k)
    requires k == cfg.maxRetries + 1 || (k <= cfg.maxRetries && answers(k).Ended?)
    ensures o.id in Accepting(e, o, acceptedAt).book
    ensures var t := Outcome(cfg, Accepting(e, o, acceptedAt), o.id, answers, 0, at);
      && Gained(e, t, Concluded(o, o.exchangeId, Status.Rejected, acceptedAt, at)) && Tallied(e.stats, t.stats, o.id, k, false)
      && SubmitReply(cfg, true, true, answers) == if k == cfg.maxRetries + 1 then ExchangeFailed else ContextEnded
  {
    StopsThere(answers, 0, k, cfg.maxRetries);
    ConcludedAfter(e, o, k, None, acceptedAt, at);
  }

  /** One that cannot be tried at all ends Rejected without a Place call. */
  lemma SubmitRefuses(e: Engine, o: Order, acceptedAt: int, at: int)
    requires o.id !in e.book
    ensures o.id in Accepting(e, o, acceptedAt).book
    ensures var t := Rejecting(Accepting(e, o, acceptedAt), o.id, at);
      Gained(e, t, Concluded(o, o.exchangeId, Status.Rejected, acceptedAt, at)) && Tallied(e.stats, t.stats, o.id, 0, false)
  {
  }

  // ---------------------------------------------------------------- hydration, as a function

  function WithDefaultMarket(o: Order): Order {
    o.(market := if o.market == Unset then Perp else o.market)
  }

  /** Later snapshots of an ID win. */
  function Hydrated(book: Book, orders: seq<Order>): Book {
    if orders == [] then book else
      var o := orders[|orders| - 1];
      Hydrated(book, orders[..|orders| - 1])[o.id := WithDefaultMarket(o)]
  }

  // ---------------------------------------------------------------- the engine

  class OrderEngine {
    const cfg: Config
    var orders: Book
    var rows: Table
    var saving: bool
    var stale: set<string>
    var stats: Stats

    constructor (cfg: Config)
      ensures this.cfg == cfg && AsEngine() == Initial().engine
    {
      this.cfg, orders, rows, saving, stale := cfg, map[], map[], true, {};
      stats := Stats(0, 0, 0, 0, 0, map[], map[], map[]);
    }

    /** The engine between two commands. */
    function AsEngine(): Engine
      reads this
    {
      Engine(orders, rows, saving, stale, Idle, stats)
    }

    /** Stores the order as it is in memory; a failed save is logged and leaves the row behind. */
    method SendOrderUpdate(id: string)
      requires id in orders && orders[id].id == id
      modifies this`rows, this`stale
      ensures AsEngine() == Put(old(AsEngine()), orders[id])
    {
      if saving {
        rows := rows[id := RowOf(orders[id])];
        stale := stale - {id};
      } else {
        stale := stale + {id};
      }
      assert orders == orders[id := orders[id]];
    }

    method HandleSubmitSuccess(id: string, exchangeId: string, at: int)
      requires id in orders && orders[id].id == id
      modifies this
      ensures AsEngine() == Finishing(old(AsEngine()), id, exchangeId, at)
    {
      orders := orders[id := WithStatus(orders[id], Submitted, at).(exchangeId := exchangeId)];
      SendOrderUpdate(id);
      stats := Told(stats.(succeeded := stats.succeeded + 1), id, Submitted);
    }

    method HandleSubmitError(id: string, at: int)
      requires id in orders && orders[id].id == id
      modifies this
      ensures AsEngine() == Rejecting(old(AsEngine()), id, at)
    {
      orders := orders[id := WithStatus(orders[id], Status.Rejected, at)];
      SendOrderUpdate(id);
      stats := Told(stats.(rejected := stats.rejected + 1, failed := stats.failed + 1), id, Status.Rejected);
    }

    /** Tries maxRetries + 1 times at most, and stops at the first success or when the context has ended. */
    method PlaceWithRetry(id: string, answers: Answers) returns (exchangeId: Option<string>, ended: bool)
      modifies this`stats
      ensures exchangeId == FirstId(answers, 0, cfg.maxRetries)
      ensures exchangeId.None? ==> (ended <==> StopsAt(answers, 0, cfg.maxRetries) <= cfg.maxRetries)
      ensures stats == Tried(old(stats), id, 0, Calls(answers, 0, cfg.maxRetries))
    {
      var attempt := 0;
      while attempt <= cfg.maxRetries
        invariant attempt <= cfg.maxRetries + 1
        invariant stats == Tried(old(stats), id, 0, attempt)
        invariant StopsAt(answers, 0, cfg.maxRetries) == StopsAt(answers, attempt, cfg.maxRetries)
      {
        if answers(attempt).Ended? {
          return None, true;
        }
        if attempt > 0 {
          stats := stats.(retries := stats.retries + 1);
        }
        stats := stats.(places := Bump(stats.places, id));
        if answers(attempt).Got? {
          return Some(answers(attempt).exchangeId), false;
        }
        attempt := attempt + 1;
      }
      exchangeId, ended := None, false;
    }

    /** An order that cannot be tried is rejected at once; the others as their attempts end. */
    method SubmitWithRetry(id: string, valid: bool, hasExecutor: bool, answers: Answers, at: int) returns (reply: Reply)
      requires id in orders && orders[id].id == id
      modifies this
      ensures AsEngine() == if valid && hasExecutor then Outcome(cfg, old(AsEngine()), id, answers, 0, at)
                            else Rejecting(old(AsEngine()), id, at)
      ensures reply == SubmitReply(cfg, valid, hasExecutor, answers)
    {
      if !valid {
        HandleSubmitError(id, at);
        return Invalid;
      }
      if !hasExecutor {
        HandleSubmitError(id, at);
        return NoExecutor;
      }
      var exchangeId, ended := PlaceWithRetry(id, answers);
      if exchangeId.Some? {
        HandleSubmitSuccess(id, exchangeId.value, at);
        return Ok;
      }
      HandleSubmitError(id, at);
      reply := if ended then ContextEnded else ExchangeFailed;
    }

    method AcceptOrder(o: Order, at: int)
      modifies this
      ensures AsEngine() == Accepting(old(AsEngine()), o, at).(phase := Idle)
      ensures o.id in orders && orders[o.id].id == o.id
    {
      orders := orders[o.id := Accepted(o, at)];
      SendOrderUpdate(o.id);
      stats := stats.(submitted := stats.submitted + 1, accepts := Bump(stats.accepts, o.id));
    }

    /** No order or a known ID is refused without a trace; a new order is accepted, stored, and tried. */
    method ExecSubmit(order: Option<Order>, valid: bool, hasExecutor: bool, answers: Answers, acceptedAt: int, at: int)
      returns (reply: Reply)
      modifies this
      ensures reply == if order.None? then NilOrder
                       else if order.value.id in old(orders) then DuplicateId
                       else SubmitReply(cfg, valid, hasExecutor, answers)
      ensures reply.NilOrder? || reply.DuplicateId? ==> AsEngine() == old(AsEngine())
      ensures !reply.NilOrder? && !reply.DuplicateId? ==>
        var e := Accepting(old(AsEngine()), order.value, acceptedAt).(phase := Idle);
        AsEngine() == if valid && hasExecutor then Outcome(cfg, e, order.value.id, answers, 0, at)
                      else Rejecting(e, order.value.id, at)
    {
      if order.None? {
        return NilOrder;
      }
      var o := order.value;
      if o.id in orders {
        return DuplicateId;
      }
      AcceptOrder(o, acceptedAt);
      reply := SubmitWithRetry(o.id, valid, hasExecutor, answers, at);
    }

    /** An acknowledged cancel marks the order cancelled at once; every other outcome changes nothing. */
    method ExecCancel(id: string, hasExecutor: bool, acknowledged: bool, at: int) returns (reply: Reply)
      requires id in orders ==> orders[id].id == id
      modifies this
      ensures reply == if id !in old(orders) then NotFound
                       else if Terminal(old(orders)[id].view.status) then TerminalStatus
                       else if !hasExecutor then NoExecutor
                       else if !acknowledged then ExchangeFailed else Ok
      ensures AsEngine() == if reply.Ok? then Put(old(AsEngine()), WithStatus(old(orders)[id], Cancelled, at)) else old(AsEngine())
      ensures id in old(orders) && old(orders)[id].view.status in {Filled, Cancelled, Status.Rejected} ==>
        reply == TerminalStatus && AsEngine() == old(AsEngine())
      ensures id in old(orders) && old(orders)[id].view.status in {Pending, Submitted, PartialFilled} ==>
        reply == if !hasExecutor then NoExecutor else if acknowledged then Ok else ExchangeFailed
      ensures reply.Ok? ==>
        orders == old(orders)[id := old(orders)[id].(view := View(Cancelled, old(orders)[id].view.filled), updatedAt := at)]
      ensures reply.Ok? && saving ==> rows == old(rows)[id := RowOf(orders[id])]
    {
      if id !in orders {
        return NotFound;
      }
      if Terminal(orders[id].view.status) {
        return TerminalStatus;
      }
      if !hasExecutor {
        return NoExecutor;
      }
      if !acknowledged {
        return ExchangeFailed;
      }
      orders := orders[id := WithStatus(orders[id], Cancelled, at)];
      SendOrderUpdate(id);
      reply := Ok;
    }

    /** The order named by the event, else one with its exchange ID, whichever the map yields first. */
    method FindOrder(r: Report) returns (found: Option<string>)
      ensures found.Some? ==> Routes(orders, r, found.value)
      ensures found.None? ==> forall id :: !Routes(orders, r, id)
      ensures r.key != "" && r.key in orders ==> found == Some(r.key)
      ensures !(r.key != "" && r.key in orders) ==>
        if r.exchangeId != "" && exists id :: id in orders && orders[id].exchangeId == r.exchangeId
        then found.Some? && found.value in orders && orders[found.value].exchangeId == r.exchangeId
        else found.None?
    {
      if r.key != "" && r.key in orders {
        return Some(r.key);
      }
      if r.exchangeId != "" {
        var rest := orders.Keys;
        while rest != {}
          invariant rest <= orders.Keys
          invariant forall id :: id in orders && id !in rest ==> orders[id].exchangeId != r.exchangeId
        {
          var id :| id in rest;
          if orders[id].exchangeId == r.exchangeId {
            return Some(id);
          }
          rest := rest - {id};
        }
      }
      found := None;
    }

    /** An event overwrites its order's status and filled size, whatever they are; other orders stay. */
    method ApplyOrderEvent(ev: Option<Report>) returns (ghost found: Option<string>)
      requires forall id :: id in orders ==> orders[id].id == id
      modifies this
      ensures found.Some? ==>
        && ev.Some? && Routes(old(orders), ev.value, found.value)
        && AsEngine() == Put(old(AsEngine()), WithReport(old(orders)[found.value], ev.value))
      ensures found.None? ==> AsEngine() == old(AsEngine()) && (ev.Some? ==> forall id :: !Routes(old(orders), ev.value, id))
      ensures found.Some? ==>
        && orders == old(orders)[found.value := old(orders)[found.value].(view := ev.value.view, updatedAt := ev.value.at)]
        && (saving ==> rows == old(rows)[found.value := RowOf(orders[found.value])])
    {
      found := None;
      match ev {
        case None => return;
        case Some(r) =>
          var order := FindOrder(r);
          found := order;
          match order {
            case None => return;
            case Some(id) =>
              orders := orders[id := WithReport(orders[id], r)];
              SendOrderUpdate(id);
          }
      }
    }

    /**
     * A snapshot is applied to the order named by the command; only an order with an empty ID is
     * looked up by the snapshot's exchange ID instead. Every failure leaves all as it was.
     */
    method ExecSync(id: string, hasExecutor: bool, answer: SyncReply) returns (reply: Reply, ghost found: Option<string>)
      requires forall other :: other in orders ==> orders[other].id == other
      requires answer.Snapshot? ==> answer.report.key == id
      modifies this
      ensures reply == if id !in old(orders) then NotFound else if !hasExecutor then NoExecutor
                       else if answer.SyncFailed? then ExchangeFailed else Ok
      ensures reply.Ok? && answer.Snapshot? && id != "" ==> found == Some(id)
      ensures found.Some? ==>
        && reply.Ok? && answer.Snapshot? && Routes(old(orders), answer.report, found.value)
        && AsEngine() == Put(old(AsEngine()), WithReport(old(orders)[found.value], answer.report))
      ensures found.None? ==> AsEngine() == old(AsEngine())
      ensures reply.Ok? && answer.Snapshot? && found.None? ==> forall other :: !Routes(old(orders), answer.report, other)
    {
      found := None;
      if id !in orders {
        return NotFound, None;
      }
      if !hasExecutor {
        return NoExecutor, None;
      }
      if answer.SyncFailed? {
        return ExchangeFailed, None;
      }
      assert answer.Snapshot? && id != "" ==> Routes(orders, answer.report, id);
      found := ApplyOrderEvent(if answer.Snapshot? then Some(answer.report) else None);
      reply := Ok;
    }

    /** Saves every order; the first save that fails ends the flush, with the earlier ones done. */
    method ExecFlush(failsAt: Option<string>) returns (reply: Reply, ghost saved: set<string>)
      modifies this`rows, this`stale
      ensures reply == if failsAt.Some? && failsAt.value in orders then StoreFailed else Ok
      ensures saved <= orders.Keys && (reply.Ok? ==> saved == orders.Keys) && (reply.StoreFailed? ==> failsAt.value !in saved)
      ensures rows == old(rows) + Rows(map id | id in saved :: orders[id]) && stale == old(stale) - saved
    {
      var rest := orders.Keys;
      saved := {};
      while rest != {}
        invariant rest !! saved && rest + saved == orders.Keys
        invariant failsAt.Some? ==> failsAt.value !in saved
        invariant rows == old(rows) + Rows(map id | id in saved :: orders[id])
        invariant stale == old(stale) - saved
      {
        var id :| id in rest;
        if failsAt == Some(id) {
          return StoreFailed, saved;
        }
        rows := rows[id := RowOf(orders[id])];
        stale := stale - {id};
        rest := rest - {id};
        saved := saved + {id};
      }
      reply := Ok;
    }

    /** Loads a snapshot over what is in memory, before the engine starts. */
    method HydrateFromSnapshot(snapshot: seq<Order>)
      modifies this`orders
      ensures orders == Hydrated(old(orders), snapshot)
    {
      var i := 0;
      while i < |snapshot|
        invariant 0 <= i <= |snapshot|
        invariant orders == Hydrated(old(orders), snapshot[..i])
      {
        assert snapshot[..i + 1][..i] == snapshot[..i];
        var o := snapshot[i];
        orders := orders[o.id := WithDefaultMarket(o)];
        i := i + 1;
      }
      assert snapshot[..i] == snapshot;
    }
  }
}
