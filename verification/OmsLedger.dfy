/** What every run of the order protocol keeps about its store and its counters. */
module OmsLedger {
  import opened Orders
  import opened OmsProtocol
  import opened OmsRouting

  // ---------------------------------------------------------------- the store

  /**
   * Every order whose last save succeeded is in the store as it is in memory, market aside; the
   * archived rows, of orders that are not loaded, stand.
   */
  ghost predicate Stored(e: Engine, archive: Table) {
    && e.stale <= e.book.Keys && e.table.Keys <= e.book.Keys + archive.Keys
    && (forall id :: id in e.book && id !in e.stale ==> id in e.table && e.table[id] == RowOf(e.book[id]))
    && (forall id :: id in archive && id !in e.book ==> id in e.table && e.table[id] == archive[id])
  }

  lemma PutStored(e: Engine, archive: Table, o: Order, phase: Phase, stats: Stats)
    requires Stored(e, archive)
    ensures Stored(Put(e, o).(phase := phase, stats := stats), archive)
    ensures Put(e, o).stale <= e.stale + if e.up then {} else {o.id}
  {
  }

  lemma FlushStored(e: Engine, archive: Table)
    requires Stored(e, archive)
    ensures Stored(Flushed(e), archive) && (e.up ==> Flushed(e).stale == {})
  {
  }

  /** One step keeps the store's rows, and leaves no order stale that was not while saves succeed. */
  lemma StepStored(cfg: Config, s: State, archive: Table, step: Step)
    requires Stored(s.engine, archive)
    ensures Stored(Apply(cfg, s, step).engine, archive)
    ensures s.engine.up ==> Apply(cfg, s, step).engine.stale <= s.engine.stale
    ensures s.engine.up && step != OnCommand(StoreTurns(false)) ==> Apply(cfg, s, step).engine.up
  {
    var t := Apply(cfg, s, step);
    match step
    case OnVenue(_) =>
    case OnPump(_) =>
    case OnSubmit(u) => SubmitStored(cfg, s, archive, u);
    case OnCommand(c) => CommandStored(s, archive, c);
  }

  lemma SubmitStored(cfg: Config, s: State, archive: Table, step: SubmitStep)
    requires Stored(s.engine, archive)
    ensures Stored(ApplySubmit(cfg, s, step).engine, archive)
    ensures s.engine.up ==> ApplySubmit(cfg, s, step).engine.stale <= s.engine.stale && ApplySubmit(cfg, s, step).engine.up
  {
    var t := ApplySubmit(cfg, s, step).engine;
    if t != s.engine {
      var e := s.engine;
      match step
      case Accept(o, at) => PutStored(e, archive, Accepted(o, at), t.phase, t.stats);
      case Reject(at) => PutStored(e, archive, WithStatus(e.book[e.phase.id], Status.Rejected, at), t.phase, t.stats);
      case PlaceFails(at) => PutStored(e, archive, WithStatus(e.book[e.phase.id], Status.Rejected, at), t.phase, t.stats);
      case Finish(at) =>
        PutStored(e, archive, WithStatus(e.book[e.phase.id], Submitted, at).(exchangeId := e.phase.exchangeId), t.phase, t.stats);
      case _ =>
    }
  }

  lemma CommandStored(s: State, archive: Table, step: CommandStep)
    requires Stored(s.engine, archive)
    ensures Stored(ApplyCommand(s, step).engine, archive)
    ensures s.engine.up ==> ApplyCommand(s, step).engine.stale <= s.engine.stale
    ensures s.engine.up && step != StoreTurns(false) ==> ApplyCommand(s, step).engine.up
  {
    var t := ApplyCommand(s, step).engine;
    if t != s.engine {
      var e := s.engine;
      match step
      case Take(id) => PutStored(e, archive, WithReport(e.book[id], s.pipe.queue[0]), t.phase, t.stats);
      case CancelDone(at) => PutStored(e, archive, WithStatus(e.book[e.phase.id], Cancelled, at), t.phase, t.stats);
      case SyncDone => PutStored(e, archive, WithReport(e.book[e.phase.id], e.phase.report), t.phase, t.stats);
      case Flush => FlushStored(e, archive);
      case _ =>
    }
  }

  lemma {:induction false} RunStored(cfg: Config, start: State, archive: Table, steps: seq<Step>)
    requires Stored(start.engine, archive)
    ensures Stored(Run(cfg, start, steps).engine, archive)
  {
    if steps != [] {
      RunStored(cfg, start, archive, steps[..|steps| - 1]);
      StepStored(cfg, Run(cfg, start, steps[..|steps| - 1]), archive, steps[|steps| - 1]);
    }
  }

  predicate StoreNeverFails(steps: seq<Step>) {
    forall i :: 0 <= i < |steps| ==> steps[i] != OnCommand(StoreTurns(false))
  }

  lemma {:induction false} NothingStale(cfg: Config, start: State, archive: Table, steps: seq<Step>)
    requires Stored(start.engine, archive) && start.engine.up && start.engine.stale == {} && StoreNeverFails(steps)
    ensures Run(cfg, start, steps).engine.up && Run(cfg, start, steps).engine.stale == {}
  {
    if steps != [] {
      var before, step := steps[..|steps| - 1], steps[|steps| - 1];
      assert StoreNeverFails(before);
      assert step != OnCommand(StoreTurns(false));
      NothingStale(cfg, start, archive, before);
      RunStored(cfg, start, archive, before);
      StepStored(cfg, Run(cfg, start, before), archive, step);
    }
  }

  lemma MirrorOf(cfg: Config, s: State, archive: Table)
    requires Inv(cfg, s) && Stored(s.engine, archive) && s.engine.stale == {}
    ensures Mirrors(s.engine.table, s.engine.book, archive)
  {
  }

  /** While saves succeed, the stored rows are the orders in memory after every step, not just every command. */
  lemma StoreMirrorsMemory(cfg: Config, start: State, archive: Table, steps: seq<Step>)
    requires Sound(cfg) && Inv(cfg, start) && Stored(start.engine, archive)
    requires start.engine.up && start.engine.stale == {} && StoreNeverFails(steps)
    ensures Mirrors(Run(cfg, start, steps).engine.table, Run(cfg, start, steps).engine.book, archive)
  {
    RunInv(cfg, start, steps);
    RunStored(cfg, start, archive, steps);
    NothingStale(cfg, start, archive, steps);
    MirrorOf(cfg, Run(cfg, start, steps), archive);
  }

  /** Whatever saves failed before, a flush that succeeds makes the store exact again. */
  lemma FlushRepairsStore(cfg: Config, start: State, archive: Table, steps: seq<Step>)
    requires Sound(cfg) && Inv(cfg, start) && Stored(start.engine, archive)
    requires Run(cfg, start, steps).engine.up && Run(cfg, start, steps).engine.phase.Idle?
    ensures var s := Run(cfg, start, steps); var t := Apply(cfg, s, OnCommand(Flush));
      Mirrors(t.engine.table, t.engine.book, archive) && t.engine.book == s.engine.book
  {
    var s := Run(cfg, start, steps);
    RunInv(cfg, start, steps);
    RunStored(cfg, start, archive, steps);
    FlushStored(s.engine, archive);
    StepInv(cfg, s, OnCommand(Flush));
    MirrorOf(cfg, Apply(cfg, s, OnCommand(Flush)), archive);
  }

  // ---------------------------------------------------------------- markets

  predicate AllPerp(book: Book) {
    forall id :: id in book ==> book[id].market == Perp
  }

  /** No submitted order asks for the spot market. */
  predicate NoSpotOrders(steps: seq<Step>) {
    forall k :: 0 <= k < |steps| && steps[k].OnSubmit? && steps[k].u.Accept? ==> steps[k].u.order.market != Spot
  }

  lemma SubmitKeepsPerp(cfg: Config, s: State, step: SubmitStep)
    requires AllPerp(s.engine.book) && (step.Accept? ==> step.order.market != Spot)
    ensures AllPerp(ApplySubmit(cfg, s, step).engine.book)
  {
  }

  lemma CommandKeepsPerp(s: State, step: CommandStep)
    requires AllPerp(s.engine.book)
    ensures AllPerp(ApplyCommand(s, step).engine.book)
  {
  }

  /** Orders without a market get the default one on acceptance and keep it. */
  lemma {:induction false} RunKeepsPerp(cfg: Config, start: State, steps: seq<Step>)
    requires AllPerp(start.engine.book) && NoSpotOrders(steps)
    ensures AllPerp(Run(cfg, start, steps).engine.book)
  {
    if steps != [] {
      var before := steps[..|steps| - 1];
      RunKeepsPerp(cfg, start, before);
      match steps[|steps| - 1]
      case OnVenue(_) =>
      case OnPump(_) =>
      case OnSubmit(u) => SubmitKeepsPerp(cfg, Run(cfg, start, before), u);
      case OnCommand(c) => CommandKeepsPerp(Run(cfg, start, before), c);
    }
  }

  // ---------------------------------------------------------------- the counters

  predicate Submitting(phase: Phase) {
    phase.Placing? || phase.Placed? || phase.Tagged?
  }

  /** Retries the running submit has used up, at most. */
  function Spent(cfg: Config, phase: Phase): int {
    if phase.Placing? then (if phase.attempt > 0 then phase.attempt - 1 else 0) else if Submitting(phase) then cfg.maxRetries else 0
  }

  predicate Balanced(cfg: Config, st: Stats, phase: Phase) {
    && st.submitted == st.succeeded + st.rejected + (if Submitting(phase) then 1 else 0)
    && st.rejected == st.failed
    && st.retries <= cfg.maxRetries * (st.succeeded + st.rejected) + Spent(cfg, phase)
  }

  /**
   * One order's account: accepted once unless it was loaded, placed within the retry limit, answered
   * once when done.
   */
  predicate Account(cfg: Config, e: Engine, loaded: set<string>, id: string) {
    && (id in loaded ==> id in e.book)
    && (Submitting(e.phase) && e.phase.id == id ==> id !in loaded)
    && Count(e.stats.accepts, id) == (if id in e.book && id !in loaded then 1 else 0)
    && (if id in loaded || id !in e.book || (Submitting(e.phase) && e.phase.id == id) then Replies(e.stats, id) == []
        else Replies(e.stats, id) == [Submitted] || Replies(e.stats, id) == [Status.Rejected])
    && Count(e.stats.places, id) <= (if e.phase.Placing? && e.phase.id == id then e.phase.attempt
                                     else if id in e.book && id !in loaded then cfg.maxRetries + 1 else 0)
  }

  ghost predicate Accounts(cfg: Config, e: Engine, loaded: set<string>) {
    forall id {:trigger Account(cfg, e, loaded, id)} :: Account(cfg, e, loaded, id)
  }

  lemma OneMoreSubmit(maxRetries: nat, done: int, retries: int, spent: int)
    requires retries <= maxRetries * done + spent && spent <= maxRetries
    ensures retries <= maxRetries * (done + 1)
  {
  }

  lemma RetriesBounded(cfg: Config, e: Engine, ex: Placements)
    requires EngineInv(cfg, e, ex) && Balanced(cfg, e.stats, e.phase)
    ensures e.stats.retries <= cfg.maxRetries * e.stats.submitted
    ensures Spent(cfg, e.phase) <= cfg.maxRetries
  {
    if Submitting(e.phase) {
      OneMoreSubmit(cfg.maxRetries, e.stats.succeeded + e.stats.rejected, e.stats.retries, Spent(cfg, e.phase));
    }
  }

  lemma SubmitBalanced(cfg: Config, s: State, step: SubmitStep)
    requires EngineInv(cfg, s.engine, s.venue.placed) && Balanced(cfg, s.engine.stats, s.engine.phase)
    ensures var t := ApplySubmit(cfg, s, step).engine; Balanced(cfg, t.stats, t.phase)
  {
    match step
    case Reject(at) => if s.engine.phase.Placing? && s.engine.phase.id in s.engine.book { RejectBalanced(cfg, s.engine, at); }
    case PlaceFails(at) => if s.engine.phase.Placing? && s.engine.phase.id in s.engine.book { FailBalanced(cfg, s.engine, at); }
    case Finish(at) => if s.engine.phase.Tagged? && s.engine.phase.id in s.engine.book { FinishBalanced(cfg, s.engine, at); }
    case _ =>
  }

  lemma RejectBalanced(cfg: Config, e: Engine, at: int)
    requires Balanced(cfg, e.stats, e.phase) && e.phase.Placing? && e.phase.attempt <= cfg.maxRetries && e.phase.id in e.book
    ensures Balanced(cfg, Rejecting(e, e.phase.id, at).stats, Rejecting(e, e.phase.id, at).phase)
  {
    OneMoreSubmit(cfg.maxRetries, e.stats.succeeded + e.stats.rejected, e.stats.retries, Spent(cfg, e.phase));
  }

  lemma FailBalanced(cfg: Config, e: Engine, at: int)
    requires Balanced(cfg, e.stats, e.phase) && e.phase.Placing? && e.phase.attempt <= cfg.maxRetries && e.phase.id in e.book
    ensures var t := Failing(cfg, e, e.phase.id, e.phase.attempt, at); Balanced(cfg, t.stats, t.phase)
  {
    if e.phase.attempt == cfg.maxRetries {
      var spent := Spent(cfg, e.phase) + if e.phase.attempt > 0 then 1 else 0;
      OneMoreSubmit(cfg.maxRetries, e.stats.succeeded + e.stats.rejected, Counted(e, e.phase.id, e.phase.attempt).stats.retries, spent);
    }
  }

  lemma FinishBalanced(cfg: Config, e: Engine, at: int)
    requires Balanced(cfg, e.stats, e.phase) && e.phase.Tagged? && e.phase.id in e.book
    ensures var t := Finishing(e, e.phase.id, e.phase.exchangeId, at); Balanced(cfg, t.stats, t.phase)
  {
    OneMoreSubmit(cfg.maxRetries, e.stats.succeeded + e.stats.rejected, e.stats.retries, Spent(cfg, e.phase));
  }

  lemma SubmitAccount(cfg: Config, s: State, step: SubmitStep, loaded: set<string>, id: string)
    requires EngineInv(cfg, s.engine, s.venue.placed) && Account(cfg, s.engine, loaded, id)
    ensures Account(cfg, ApplySubmit(cfg, s, step).engine, loaded, id)
  {
    var t := ApplySubmit(cfg, s, step);
    if t != s {
      match step
      case Accept(o, at) => AcceptAccount(cfg, s.engine, o, at, loaded, id);
      case Reject(at) => RejectAccount(cfg, s.engine, at, loaded, id);
      case PlaceFails(at) => FailAccount(cfg, s.engine, at, loaded, id);
      case _ =>
    }
  }

  lemma AcceptAccount(cfg: Config, e: Engine, o: Order, at: int, loaded: set<string>, id: string)
    requires Account(cfg, e, loaded, id) && e.phase.Idle? && o.id !in e.book
    ensures Account(cfg, Accepting(e, o, at), loaded, id)
  {
  }

  lemma RejectAccount(cfg: Config, e: Engine, at: int, loaded: set<string>, id: string)
    requires Account(cfg, e, loaded, id) && e.phase.Placing? && e.phase.attempt <= cfg.maxRetries
    requires e.phase.id in e.book && e.book[e.phase.id].id == e.phase.id
    ensures Account(cfg, Rejecting(e, e.phase.id, at), loaded, id)
  {
  }

  lemma FailAccount(cfg: Config, e: Engine, at: int, loaded: set<string>, id: string)
    requires Account(cfg, e, loaded, id) && e.phase.Placing? && e.phase.attempt <= cfg.maxRetries
    requires e.phase.id in e.book && e.book[e.phase.id].id == e.phase.id
    ensures Account(cfg, Failing(cfg, e, e.phase.id, e.phase.attempt, at), loaded, id)
  {
  }

  lemma TakeKeepsCounts(cfg: Config, s: State, id: string)
    requires EngineInv(cfg, s.engine, s.venue.placed) && MayTake(s, id)
    ensures Taking(s, id).engine.stats == s.engine.stats && Taking(s, id).engine.book.Keys == s.engine.book.Keys
    ensures Taking(s, id).engine.phase == s.engine.phase
  {
  }

  /** No other command touches the counters or adds an order. */
  lemma CommandKeepsCounts(cfg: Config, s: State, step: CommandStep)
    requires EngineInv(cfg, s.engine, s.venue.placed)
    ensures var e, t := s.engine, ApplyCommand(s, step).engine;
      t.stats == e.stats && t.book.Keys == e.book.Keys && (t.phase == e.phase || !(Submitting(t.phase) || Submitting(e.phase)))
  {
    if step.Take? && MayTake(s, step.id) {
      TakeKeepsCounts(cfg, s, step.id);
    }
  }

  lemma CommandCounts(cfg: Config, s: State, step: CommandStep, loaded: set<string>)
    requires EngineInv(cfg, s.engine, s.venue.placed) && Accounts(cfg, s.engine, loaded)
    requires Balanced(cfg, s.engine.stats, s.engine.phase)
    ensures var t := ApplyCommand(s, step).engine; Accounts(cfg, t, loaded) && Balanced(cfg, t.stats, t.phase)
  {
    CommandKeepsCounts(cfg, s, step);
    AccountsOnly(cfg, s.engine, ApplyCommand(s, step).engine, loaded);
  }

  lemma AccountsOnly(cfg: Config, e: Engine, t: Engine, loaded: set<string>)
    requires Accounts(cfg, e, loaded) && t.stats == e.stats && t.book.Keys == e.book.Keys
    requires t.phase == e.phase || !(Submitting(t.phase) || Submitting(e.phase))
    ensures Accounts(cfg, t, loaded)
  {
    forall id {:trigger Account(cfg, t, loaded, id)} ensures Account(cfg, t, loaded, id) {
      assert Account(cfg, e, loaded, id);
      assert id in t.book <==> id in t.book.Keys;
      assert id in e.book <==> id in e.book.Keys;
    }
  }

  /** Where a count begins: no command is running and nothing has been counted. */
  predicate Opening(start: State) {
    start.engine.phase.Idle? && start.engine.stats == NO_STATS
  }

  lemma SubmitCounts(cfg: Config, s: State, step: SubmitStep, loaded: set<string>)
    requires EngineInv(cfg, s.engine, s.venue.placed) && Accounts(cfg, s.engine, loaded)
    requires Balanced(cfg, s.engine.stats, s.engine.phase)
    ensures var t := ApplySubmit(cfg, s, step).engine; Accounts(cfg, t, loaded) && Balanced(cfg, t.stats, t.phase)
  {
    var t := ApplySubmit(cfg, s, step).engine;
    SubmitBalanced(cfg, s, step);
    forall id {:trigger Account(cfg, t, loaded, id)} ensures Account(cfg, t, loaded, id) {
      assert Account(cfg, s.engine, loaded, id);
      SubmitAccount(cfg, s, step, loaded, id);
    }
  }

  lemma {:induction false} RunCounts(cfg: Config, start: State, steps: seq<Step>)
    requires Sound(cfg) && Inv(cfg, start) && Opening(start)
    ensures var e := Run(cfg, start, steps).engine; Accounts(cfg, e, start.engine.book.Keys) && Balanced(cfg, e.stats, e.phase)
  {
    if steps != [] {
      var before := steps[..|steps| - 1];
      RunInv(cfg, start, before);
      RunCounts(cfg, start, before);
      match steps[|steps| - 1]
      case OnVenue(_) =>
      case OnPump(_) =>
      case OnSubmit(u) => SubmitCounts(cfg, Run(cfg, start, before), u, start.engine.book.Keys);
      case OnCommand(c) => CommandCounts(cfg, Run(cfg, start, before), c, start.engine.book.Keys);
    }
  }

  /**
   * In every run: each accepted submit is a success, a rejection or the one still running; rejections
   * and failures agree; retries stay within maxRetries per submit.
   */
  lemma SubmitAccounting(cfg: Config, start: State, steps: seq<Step>)
    requires Sound(cfg) && Inv(cfg, start) && Opening(start)
    ensures var e := Run(cfg, start, steps).engine;
      && e.stats.submitted == e.stats.succeeded + e.stats.rejected + (if Submitting(e.phase) then 1 else 0)
      && e.stats.rejected == e.stats.failed
      && e.stats.retries <= cfg.maxRetries * e.stats.submitted
  {
    RunInv(cfg, start, steps);
    RunCounts(cfg, start, steps);
    RetriesBounded(cfg, Run(cfg, start, steps).engine, Run(cfg, start, steps).venue.placed);
  }

  /**
   * In every run, an order is accepted and answered once and placed at most maxRetries + 1 times;
   * one loaded at the start is never accepted, placed or answered.
   */
  lemma OneAnswerPerOrder(cfg: Config, start: State, steps: seq<Step>, id: string)
    requires Sound(cfg) && Inv(cfg, start) && Opening(start)
    ensures var e, loaded := Run(cfg, start, steps).engine, start.engine.book;
      && Count(e.stats.accepts, id) == (if id in e.book && id !in loaded then 1 else 0)
      && Count(e.stats.places, id) <= (if id in loaded then 0 else cfg.maxRetries + 1)
      && (id in e.book && id !in loaded && !(Submitting(e.phase) && e.phase.id == id) ==>
            Replies(e.stats, id) == [Submitted] || Replies(e.stats, id) == [Status.Rejected])
  {
    RunInv(cfg, start, steps);
    RunCounts(cfg, start, steps);
    assert Account(cfg, Run(cfg, start, steps).engine, start.engine.book.Keys, id);
  }

  /** Only submits answer; the answer is the order's status as it is then, in memory and, if saves succeed, in the store. */
  predicate AnswersTruly(e: Engine, t: Engine, id: string) {
    Replies(t.stats, id) != Replies(e.stats, id) ==>
      && id in t.book && t.phase.Idle?
      && Replies(t.stats, id) == Replies(e.stats, id) + [t.book[id].view.status]
      && (t.up ==> id in t.table && t.table[id].view.status == t.book[id].view.status)
  }

  lemma SubmitReplies(cfg: Config, s: State, step: SubmitStep, id: string)
    requires EngineInv(cfg, s.engine, s.venue.placed)
    ensures AnswersTruly(s.engine, ApplySubmit(cfg, s, step).engine, id)
  {
  }

  lemma CommandReplies(s: State, step: CommandStep, id: string)
    ensures AnswersTruly(s.engine, ApplyCommand(s, step).engine, id)
  {
    assert ApplyCommand(s, step).engine.stats == s.engine.stats;
  }

  lemma RepliesReportTheOutcome(cfg: Config, start: State, steps: seq<Step>, step: Step, id: string)
    requires Sound(cfg) && Inv(cfg, start)
    ensures AnswersTruly(Run(cfg, start, steps).engine, Apply(cfg, Run(cfg, start, steps), step).engine, id)
  {
    RunInv(cfg, start, steps);
    var s := Run(cfg, start, steps);
    match step
    case OnVenue(_) =>
    case OnPump(_) =>
    case OnSubmit(u) => SubmitReplies(cfg, s, u, id);
    case OnCommand(c) => CommandReplies(s, c, id);
  }
}
