/**
 * The engine's orders converge to the exchange's: what the engine does not yet know about an order
 * is in a report on its way, even though cancel acknowledgements and sync snapshots overtake reports.
 */
module OmsConvergence {
  import opened Wrappers
  import opened Orders
  import opened OmsProtocol
  import opened OmsRouting

  /** What the last report of exchange order `x` says. */
  function Last(reports: seq<Report>, x: string): Option<View> {
    if reports == [] then None else
      var r := reports[|reports| - 1];
      if r.exchangeId == x then Some(r.view) else Last(reports[..|reports| - 1], x)
  }

  function HeldView(hand: Hand, x: string): Option<View> {
    if hand.Resolved? && hand.report.exchangeId == x then Some(hand.report.view) else None
  }

  function OrElse(a: Option<View>, b: Option<View>): Option<View> {
    if a.Some? then a else b
  }

  /** The newest report of `x` that has not reached the queue: on the stream or in the pump's hand. */
  function Ahead(s: State, x: string): Option<View> {
    OrElse(Last(s.venue.stream, x), HeldView(s.pipe.hand, x))
  }

  /** What the book will show of `x` once the command the engine is in the middle of has finished. */
  function Belief(e: Engine, owner: string, x: string): View
    requires owner in e.book
  {
    var view := e.book[owner].view;
    match e.phase
    case Placed(_, y) => if y == x then View(Submitted, view.filled) else view
    case Tagged(_, y) => if y == x then View(Submitted, view.filled) else view
    case CancelAcked(id) => if id == owner then View(Cancelled, view.filled) else view
    case Synced(id, r) => if id == owner then r.view else view
    case _ => view
  }

  /** An exchange order of an order in the book. */
  predicate Known(s: State, x: string) {
    x in s.venue.placed && s.venue.placed[x].owner in s.engine.book
  }

  function Now(s: State, x: string): View
    requires x in s.venue.placed
  {
    s.venue.placed[x].view
  }

  /** What the book will show of `x` once the queue has been worked off too. */
  function LeftWith(s: State, x: string): View
    requires Known(s, x)
  {
    match Last(s.pipe.queue, x)
    case Some(view) => view
    case None => Belief(s.engine, s.venue.placed[x].owner, x)
  }

  // ---------------------------------------------------------------- missed reports

  /** Hearing `view` of `x` directly, while none of its reports is queued, makes up for a missed one. */
  function Heard(s: State, missed: set<string>, x: string, view: View): set<string>
    requires x in s.venue.placed
  {
    if Last(s.pipe.queue, x).None? && view == Now(s, x) then missed - {x} else missed
  }

  /**
   * An observer's record of the exchange orders the engine has missed the newest report of, kept by
   * watching the steps. A dropped report is missed if none follows it and the engine is left with
   * another view; a new report makes up for it, and so does a sync or a cancel's acknowledgement
   * that no older report still queued can overwrite.
   */
  function Observe(s: State, missed: set<string>, step: Step): set<string> {
    match step
    case OnVenue(Moves(x, view, _)) => if x in s.venue.placed && view != Now(s, x) then missed - {x} else missed
    case OnPump(Emit(dropped)) =>
      if MayEmit(s.pipe, dropped) then AfterEmit(s, missed, s.pipe.hand.report, dropped) else missed
    case OnSubmit(PlaceSucceeds(x, _, _, _)) => if x in s.venue.placed then missed else missed - {x}
    case OnCommand(CancelSucceeds(_)) =>
      if s.engine.phase.Cancelling? && Open(s, s.engine.phase.id) then AfterCancel(s, missed, s.engine.book[s.engine.phase.id])
      else missed
    case OnCommand(SyncReads(_)) =>
      if s.engine.phase.Syncing? && Open(s, s.engine.phase.id) then
        var x := s.engine.book[s.engine.phase.id].exchangeId;
        Heard(s, missed, x, Now(s, x))
      else missed
    case _ => missed
  }

  function AfterEmit(s: State, missed: set<string>, r: Report, dropped: bool): set<string> {
    var x := r.exchangeId;
    if dropped && Last(s.venue.stream, x).None? && Known(s, x) && LeftWith(s, x) != r.view then missed + {x} else missed - {x}
  }

  function AfterCancel(s: State, missed: set<string>, o: Order): set<string>
    requires o.exchangeId in s.venue.placed
  {
    var x := o.exchangeId;
    if Now(s, x).status == Cancelled then Heard(s, missed, x, View(Cancelled, o.view.filled)) else missed - {x}
  }

  /** The record along a run. */
  ghost function Missed(cfg: Config, start: State, missed: set<string>, steps: seq<Step>): set<string> {
    if steps == [] then missed else
      var before := steps[..|steps| - 1];
      Observe(Run(cfg, start, before), Missed(cfg, start, missed, before), steps[|steps| - 1])
  }

  /** A report not yet queued is current; with none, the order is missed exactly when the engine is left with another view. */
  predicate ExactAt(s: State, missed: set<string>, x: string)
    requires Known(s, x)
  {
    match Ahead(s, x)
    case Some(view) => view == Now(s, x) && x !in missed
    case None => x in missed <==> LeftWith(s, x) != Now(s, x)
  }

  ghost predicate Exact(s: State, missed: set<string>) {
    forall x {:trigger Known(s, x)} :: Known(s, x) ==> ExactAt(s, missed, x)
  }

  lemma LastSnoc(reports: seq<Report>, r: Report, x: string)
    ensures Last(reports + [r], x) == if r.exchangeId == x then Some(r.view) else Last(reports, x)
  {
    assert (reports + [r])[..|reports|] == reports;
  }

  lemma {:induction false} LastTail(reports: seq<Report>, x: string)
    requires reports != []
    ensures Last(reports, x) == OrElse(Last(reports[1..], x), if reports[0].exchangeId == x then Some(reports[0].view) else None)
  {
    var n := |reports| - 1;
    if n > 0 && reports[n].exchangeId != x {
      LastTail(reports[..n], x);
      assert reports[..n][1..] == reports[1..][..n - 1];
    }
  }

  // ---------------------------------------------------------------- the invariant, one exchange order at a time

  lemma MovedAhead(s: State, y: string, view: View, at: int, t: State, x: string)
    requires y in s.venue.placed && t.venue == Moved(s.venue, y, view, at) && t.pipe.hand == s.pipe.hand
    ensures Ahead(t, x) == if x == y then Some(view) else Ahead(s, x)
  {
    LastSnoc(s.venue.stream, Report(y, s.venue.placed[y].tag, view, at), x);
  }

  /** A move of any exchange order; the moved one has a current report ahead. */
  lemma MovedExact(s: State, m: set<string>, y: string, view: View, at: int, t: State, x: string)
    requires y in s.venue.placed && Known(s, x) && ExactAt(s, m, x)
    requires t.venue == Moved(s.venue, y, view, at) && t.pipe == s.pipe && t.engine.book == s.engine.book
    requires x != y ==> Belief(t.engine, s.venue.placed[x].owner, x) == Belief(s.engine, s.venue.placed[x].owner, x)
    ensures ExactAt(t, m - {y}, x)
  {
    MovedAhead(s, y, view, at, t, x);
    assert x != y ==> LeftWith(t, x) == LeftWith(s, x) && Now(t, x) == Now(s, x);
  }

  lemma VenueExact(cfg: Config, s: State, m: set<string>, step: VenueStep, x: string)
    requires Sound(cfg) && Inv(cfg, s) && Exact(s, m) && Known(ApplyVenue(cfg, s, step), x)
    ensures ExactAt(ApplyVenue(cfg, s, step), Observe(s, m, OnVenue(step)), x)
  {
    assert !cfg.local("");
    assert Known(s, x);
    match step
    case Moves(y, view, at) =>
      if y in s.venue.placed && view != Now(s, y) { MovedExact(s, m, y, view, at, ApplyVenue(cfg, s, step), x); }
    case Foreign(y, tag, view) =>
  }

  lemma EmitExact(s: State, m: set<string>, dropped: bool, x: string)
    requires Known(s, x) && ExactAt(s, m, x) && s.pipe.hand.Resolved?
    ensures ExactAt(s.(pipe := Emitting(s.pipe, dropped)), AfterEmit(s, m, s.pipe.hand.report, dropped), x)
  {
    LastSnoc(s.pipe.queue, s.pipe.hand.report, x);
  }

  lemma PumpExact(cfg: Config, s: State, m: set<string>, step: PumpStep, x: string)
    requires Exact(s, m) && Known(ApplyPump(cfg, s, step), x)
    ensures ExactAt(ApplyPump(cfg, s, step), Observe(s, m, OnPump(step)), x)
  {
    assert Known(s, x);
    match step
    case Resolve => if s.venue.stream != [] { LastTail(s.venue.stream, x); }
    case Emit(dropped) => if MayEmit(s.pipe, dropped) { EmitExact(s, m, dropped, x); }
    case Unregister =>
  }

  lemma {:induction false} NeverReported(reports: seq<Report>, x: string)
    requires forall i :: 0 <= i < |reports| ==> reports[i].exchangeId != x
    ensures Last(reports, x) == None
  {
    if reports != [] { NeverReported(reports[..|reports| - 1], x); }
  }

  /** There are no reports of an exchange order that does not exist. */
  lemma NothingReported(cfg: Config, s: State, x: string)
    requires Inv(cfg, s) && x !in s.venue.placed
    ensures Ahead(s, x) == None && Last(s.pipe.queue, x) == None
  {
    NeverReported(s.venue.stream, x);
    NeverReported(s.pipe.queue, x);
  }

  /** An order being placed has no exchange order yet. */
  lemma NotYetPlaced(cfg: Config, s: State, x: string)
    requires Sound(cfg) && Inv(cfg, s) && Known(s, x) && s.engine.phase.Placing?
    ensures s.venue.placed[x].owner != s.engine.phase.id
  {
    assert cfg.local(s.venue.placed[x].owner);
  }

  /** The state after a successful placement. */
  function AfterPlacement(cfg: Config, s: State, x: string, view: View, silent: bool, at: int): State
    requires s.engine.phase.Placing?
  {
    var id := s.engine.phase.id;
    State(Opened(cfg, s.venue, id, x, view, silent, at), s.pipe,
          Counted(s.engine, id, s.engine.phase.attempt).(phase := Placed(id, x)))
  }

  lemma OpenedExact(cfg: Config, s: State, m: set<string>, y: string, view: View, silent: bool, at: int, x: string)
    requires Inv(cfg, s) && Exact(s, m) && s.engine.phase.Placing? && s.engine.phase.id in s.engine.book && y !in s.venue.placed
    requires silent ==> view == View(Submitted, s.engine.book[s.engine.phase.id].view.filled)
    requires Known(AfterPlacement(cfg, s, y, view, silent, at), x)
    ensures ExactAt(AfterPlacement(cfg, s, y, view, silent, at), m - {y}, x)
  {
    LastSnoc(s.venue.stream, Report(y, cfg.tag(s.engine.phase.id), view, at), x);
    if x == y {
      NothingReported(cfg, s, x);
    } else {
      assert Known(s, x);
    }
  }

  /** Nothing on its way changes, and neither does what the engine believes. */
  predicate SameOf(s: State, t: State, x: string) {
    && Known(s, x) && Known(t, x)
    && t.venue == s.venue && t.pipe.hand == s.pipe.hand && t.pipe.queue == s.pipe.queue
    && Belief(t.engine, t.venue.placed[x].owner, x) == Belief(s.engine, s.venue.placed[x].owner, x)
  }

  lemma SameBelief(s: State, m: set<string>, t: State, m': set<string>, x: string)
    requires SameOf(s, t, x) && ExactAt(s, m, x) && (x in m' <==> x in m)
    ensures ExactAt(t, m', x)
  {
  }

  /**
   * The engine hears `view` of `x` itself. That is current, or its belief was not current before
   * either.
   */
  lemma HearExact(s: State, m: set<string>, t: State, x: string, view: View)
    requires Known(s, x) && ExactAt(s, m, x) && Known(t, x)
    requires t.venue == s.venue && t.pipe.hand == s.pipe.hand && t.pipe.queue == s.pipe.queue
    requires Belief(t.engine, t.venue.placed[x].owner, x) == view
    requires view == Now(s, x) || Belief(s.engine, s.venue.placed[x].owner, x) != Now(s, x)
    ensures ExactAt(t, Heard(s, m, x, view), x)
  {
  }

  lemma AcceptSame(s: State, o: Order, at: int, x: string)
    requires s.engine.phase.Idle? && Unplaced(s.venue, o.id) && Known(s.(engine := Accepting(s.engine, o, at)), x)
    ensures SameOf(s, s.(engine := Accepting(s.engine, o, at)), x)
  {
    assert s.venue.placed[x].owner != o.id;
  }

  /** The order being placed is replaced, and no other. */
  lemma EndSame(cfg: Config, s: State, e: Engine, x: string)
    requires Sound(cfg) && Inv(cfg, s) && s.engine.phase.Placing? && (e.phase.Idle? || e.phase.Placing?)
    requires e.book.Keys == s.engine.book.Keys
    requires forall id :: id in e.book && id != s.engine.phase.id ==> e.book[id] == s.engine.book[id]
    requires Known(s.(engine := e), x)
    ensures SameOf(s, s.(engine := e), x)
  {
    assert s.venue.placed[x].owner in s.engine.book.Keys;
    NotYetPlaced(cfg, s, x);
  }

  lemma RejectSame(cfg: Config, s: State, at: int, x: string)
    requires Sound(cfg) && Inv(cfg, s) && s.engine.phase.Placing? && s.engine.phase.id in s.engine.book
    requires Known(s.(engine := Rejecting(s.engine, s.engine.phase.id, at)), x)
    ensures SameOf(s, s.(engine := Rejecting(s.engine, s.engine.phase.id, at)), x)
  {
    EndSame(cfg, s, Rejecting(s.engine, s.engine.phase.id, at), x);
  }

  lemma FailSame(cfg: Config, s: State, at: int, x: string)
    requires Sound(cfg) && Inv(cfg, s) && s.engine.phase.Placing? && s.engine.phase.id in s.engine.book
    requires Known(s.(engine := Failing(cfg, s.engine, s.engine.phase.id, s.engine.phase.attempt, at)), x)
    ensures SameOf(s, s.(engine := Failing(cfg, s.engine, s.engine.phase.id, s.engine.phase.attempt, at)), x)
  {
    EndSame(cfg, s, Failing(cfg, s.engine, s.engine.phase.id, s.engine.phase.attempt, at), x);
  }

  /** Storing the exchange ID of the order just placed makes the book say what was believed. */
  lemma FinishSame(cfg: Config, s: State, at: int, x: string)
    requires Sound(cfg) && Inv(cfg, s) && s.engine.phase.Tagged?
    requires Known(s.(engine := Finishing(s.engine, s.engine.phase.id, s.engine.phase.exchangeId, at)), x)
    ensures SameOf(s, s.(engine := Finishing(s.engine, s.engine.phase.id, s.engine.phase.exchangeId, at)), x)
  {
    assert cfg.local(s.venue.placed[x].owner);
  }

  /** Accepting, rejecting, failing, registering and finishing tell the engine nothing new of any exchange order. */
  lemma QuietSubmit(cfg: Config, s: State, step: SubmitStep, x: string)
    requires Sound(cfg) && Inv(cfg, s) && !step.PlaceSucceeds? && Known(ApplySubmit(cfg, s, step), x)
    ensures SameOf(s, ApplySubmit(cfg, s, step), x)
  {
    var t := ApplySubmit(cfg, s, step);
    if t != s {
      match step
      case Accept(o, at) => AcceptSame(s, o, at, x);
      case Reject(at) => RejectSame(cfg, s, at, x);
      case PlaceFails(at) => FailSame(cfg, s, at, x);
      case Register =>
      case Finish(at) => FinishSame(cfg, s, at, x);
    }
  }

  lemma SubmitExact(cfg: Config, s: State, m: set<string>, step: SubmitStep, x: string)
    requires Sound(cfg) && Inv(cfg, s) && Exact(s, m) && Known(ApplySubmit(cfg, s, step), x)
    ensures ExactAt(ApplySubmit(cfg, s, step), Observe(s, m, OnSubmit(step)), x)
  {
    if step.PlaceSucceeds? {
      PlaceSucceedsExact(cfg, s, m, step, x);
    } else {
      QuietSubmit(cfg, s, step, x);
      SameBelief(s, m, ApplySubmit(cfg, s, step), m, x);
    }
  }

  lemma PlaceSucceedsExact(cfg: Config, s: State, m: set<string>, step: SubmitStep, x: string)
    requires Inv(cfg, s) && Exact(s, m) && step.PlaceSucceeds? && Known(ApplySubmit(cfg, s, step), x)
    ensures ExactAt(ApplySubmit(cfg, s, step), Observe(s, m, OnSubmit(step)), x)
  {
    var y := step.exchangeId;
    if ApplySubmit(cfg, s, step) != s {
      OpenedExact(cfg, s, m, y, step.view, step.silent, step.at, x);
    } else {
      assert Known(s, x);
      assert x == y ==> y in s.venue.placed;
    }
  }

  /** Outside a placement an order's exchange order is the one whose ID it stores. */
  lemma OwnerKnows(cfg: Config, s: State, x: string)
    requires Sound(cfg) && Inv(cfg, s) && Known(s, x) && !s.engine.phase.Placed? && !s.engine.phase.Tagged?
    ensures s.engine.book[s.venue.placed[x].owner].exchangeId == x
    ensures s.engine.book[s.venue.placed[x].owner].id == s.venue.placed[x].owner
  {
    assert cfg.local(s.venue.placed[x].owner);
  }

  lemma TakeExact(cfg: Config, s: State, m: set<string>, id: string, x: string)
    requires Sound(cfg) && Inv(cfg, s) && Exact(s, m) && MayTake(s, id) && Known(Taking(s, id), x)
    ensures ExactAt(Taking(s, id), m, x)
  {
    var r := s.pipe.queue[0];
    RoutesToOwner(cfg, s.engine, s.venue.placed, r, id);
    RoutesToOwner(cfg, s.engine, s.venue.placed, r, s.venue.placed[r.exchangeId].owner);
    assert Known(s, x);
    LastTail(s.pipe.queue, x);
  }

  /** A command's phase that is about order `id` leaves the belief about other orders alone. */
  lemma OthersSame(cfg: Config, s: State, phase: Phase, x: string)
    requires Sound(cfg) && Inv(cfg, s) && Known(s, x) && (s.engine.phase.Cancelling? || s.engine.phase.Syncing?)
    requires (phase.CancelAcked? || phase.Synced?) && s.venue.placed[x].owner != phase.id
    ensures SameOf(s, s.(engine := s.engine.(phase := phase)), x)
  {
  }

  /** The cancel of an order the exchange had cancelled already. */
  lemma CancelRepeats(cfg: Config, s: State, m: set<string>, id: string, x: string)
    requires Sound(cfg) && Inv(cfg, s) && Exact(s, m) && s.engine.phase == Cancelling(id) && Open(s, id) && Known(s, x)
    requires Now(s, s.engine.book[id].exchangeId).status == Cancelled
    ensures ExactAt(s.(engine := s.engine.(phase := CancelAcked(id))), AfterCancel(s, m, s.engine.book[id]), x)
  {
    var t := s.(engine := s.engine.(phase := CancelAcked(id)));
    OwnerKnows(cfg, s, x);
    if s.venue.placed[x].owner == id {
      HearExact(s, m, t, x, View(Cancelled, s.engine.book[id].view.filled));
    } else {
      OthersSame(cfg, s, CancelAcked(id), x);
      SameBelief(s, m, t, AfterCancel(s, m, s.engine.book[id]), x);
    }
  }

  lemma CancelMoves(cfg: Config, s: State, m: set<string>, id: string, at: int, x: string)
    requires Sound(cfg) && Inv(cfg, s) && Exact(s, m) && s.engine.phase == Cancelling(id) && Open(s, id) && Known(s, x)
    requires Now(s, s.engine.book[id].exchangeId).status != Cancelled
    ensures var y := s.engine.book[id].exchangeId; var view := View(Cancelled, Now(s, y).filled);
      ExactAt(State(Moved(s.venue, y, view, at), s.pipe, s.engine.(phase := CancelAcked(id))), m - {y}, x)
  {
    var y := s.engine.book[id].exchangeId;
    var view := View(Cancelled, Now(s, y).filled);
    OwnerKnows(cfg, s, x);
    if x != y { OthersSame(cfg, s, CancelAcked(id), x); }
    MovedExact(s, m, y, view, at, State(Moved(s.venue, y, view, at), s.pipe, s.engine.(phase := CancelAcked(id))), x);
  }

  lemma CancelSucceedsExact(cfg: Config, s: State, m: set<string>, at: int, x: string)
    requires Sound(cfg) && Inv(cfg, s) && Exact(s, m) && s.engine.phase.Cancelling? && Open(s, s.engine.phase.id)
    requires Known(ApplyCommand(s, CancelSucceeds(at)), x)
    ensures ExactAt(ApplyCommand(s, CancelSucceeds(at)), Observe(s, m, OnCommand(CancelSucceeds(at))), x)
  {
    var id := s.engine.phase.id;
    assert Known(s, x);
    if Now(s, s.engine.book[id].exchangeId).status == Cancelled {
      CancelRepeats(cfg, s, m, id, x);
    } else {
      CancelMoves(cfg, s, m, id, at, x);
    }
  }

  /** An acknowledged cancel leaves the exchange's order cancelled with what it had filled, and is reported unless it was. */
  lemma CancelReachesVenue(cfg: Config, s: State, at: int)
    requires s.engine.phase.Cancelling? && Open(s, s.engine.phase.id)
    ensures var y := s.engine.book[s.engine.phase.id].exchangeId;
      var was, t := Now(s, y), Apply(cfg, s, OnCommand(CancelSucceeds(at)));
      && Now(t, y) == View(Cancelled, was.filled)
      && t.venue.stream == s.venue.stream +
           (if was.status == Cancelled then [] else [Report(y, s.venue.placed[y].tag, View(Cancelled, was.filled), at)])
  {
  }

  /** A sync that has read its order's state. */
  lemma SyncHeard(cfg: Config, s: State, m: set<string>, id: string, at: int, x: string)
    requires Sound(cfg) && Inv(cfg, s) && Exact(s, m) && s.engine.phase == Syncing(id) && Open(s, id) && Known(s, x)
    ensures var y := s.engine.book[id].exchangeId;
      ExactAt(s.(engine := s.engine.(phase := Synced(id, Report(y, id, Now(s, y), at)))), Heard(s, m, y, Now(s, y)), x)
  {
    var y := s.engine.book[id].exchangeId;
    var t := s.(engine := s.engine.(phase := Synced(id, Report(y, id, Now(s, y), at))));
    OwnerKnows(cfg, s, x);
    if s.venue.placed[x].owner == id {
      HearExact(s, m, t, x, Now(s, x));
    } else {
      OthersSame(cfg, s, t.engine.phase, x);
      SameBelief(s, m, t, Heard(s, m, y, Now(s, y)), x);
    }
  }

  lemma SyncReadsExact(cfg: Config, s: State, m: set<string>, at: int, x: string)
    requires Sound(cfg) && Inv(cfg, s) && Exact(s, m) && s.engine.phase.Syncing? && Open(s, s.engine.phase.id)
    requires Known(ApplyCommand(s, SyncReads(at)), x)
    ensures ExactAt(ApplyCommand(s, SyncReads(at)), Observe(s, m, OnCommand(SyncReads(at))), x)
  {
    assert Known(s, x);
    SyncHeard(cfg, s, m, s.engine.phase.id, at, x);
  }

  /** Ending a cancel or a sync makes the engine's pending belief its book. */
  lemma EndExact(s: State, m: set<string>, o: Order, x: string)
    requires Exact(s, m) && o.id in s.engine.book
    requires || (s.engine.phase == CancelAcked(o.id) && o.view == View(Cancelled, s.engine.book[o.id].view.filled))
             || (s.engine.phase.Synced? && s.engine.phase.id == o.id && s.engine.phase.report.view == o.view)
    requires Known(s.(engine := Put(s.engine, o).(phase := Idle)), x)
    ensures ExactAt(s.(engine := Put(s.engine, o).(phase := Idle)), m, x)
  {
    assert Known(s, x);
  }

  /** In these phases the engine's belief is what its book says. */
  predicate Plain(phase: Phase) {
    phase.Idle? || phase.Cancelling? || phase.Syncing?
  }

  lemma PlainExact(s: State, m: set<string>, e: Engine, x: string)
    requires Exact(s, m) && e.book == s.engine.book && (e.phase == s.engine.phase || (Plain(e.phase) && Plain(s.engine.phase)))
    requires Known(s.(engine := e), x)
    ensures ExactAt(s.(engine := e), m, x)
  {
    assert Known(s, x);
  }

  /** The ends of a cancel and of a sync. */
  lemma DoneExact(s: State, m: set<string>, step: CommandStep, x: string)
    requires Exact(s, m) && (step.CancelDone? || step.SyncDone?) && Known(ApplyCommand(s, step), x)
    requires BookIds(s.engine.book)
    ensures ExactAt(ApplyCommand(s, step), m, x)
  {
    if ApplyCommand(s, step) == s {
      assert Known(s, x);
    } else {
      var o := s.engine.book[s.engine.phase.id];
      if step.CancelDone? { EndExact(s, m, WithStatus(o, Cancelled, step.at), x); }
      else { EndExact(s, m, WithReport(o, s.engine.phase.report), x); }
    }
  }

  predicate BookIds(book: Book) {
    forall id :: id in book ==> book[id].id == id
  }

  lemma StartedExact(s: State, m: set<string>, step: CommandStep, x: string)
    requires Exact(s, m) && (step.Cancel? || step.Sync? || step.Fails? || step.Flush? || step.StoreTurns?)
    requires Known(ApplyCommand(s, step), x)
    ensures ExactAt(ApplyCommand(s, step), m, x)
  {
    PlainExact(s, m, ApplyCommand(s, step).engine, x);
  }

  lemma HeardExact(cfg: Config, s: State, m: set<string>, step: CommandStep, x: string)
    requires Sound(cfg) && Inv(cfg, s) && Exact(s, m) && (step.CancelSucceeds? || step.SyncReads?) && Known(ApplyCommand(s, step), x)
    ensures ExactAt(ApplyCommand(s, step), Observe(s, m, OnCommand(step)), x)
  {
    if ApplyCommand(s, step) == s {
      assert Known(s, x);
    } else if step.CancelSucceeds? {
      CancelSucceedsExact(cfg, s, m, step.at, x);
    } else {
      SyncReadsExact(cfg, s, m, step.at, x);
    }
  }

  lemma TakeStepExact(cfg: Config, s: State, m: set<string>, id: string, x: string)
    requires Sound(cfg) && Inv(cfg, s) && Exact(s, m) && Known(ApplyCommand(s, Take(id)), x)
    ensures ExactAt(ApplyCommand(s, Take(id)), m, x)
  {
    if MayTake(s, id) {
      TakeExact(cfg, s, m, id, x);
    } else {
      assert Known(s, x);
    }
  }

  lemma InvBookIds(cfg: Config, s: State)
    requires Inv(cfg, s)
    ensures BookIds(s.engine.book)
  {
  }

  /** The commands an observer learns nothing from. */
  lemma QuietCommand(cfg: Config, s: State, m: set<string>, step: CommandStep, x: string)
    requires Sound(cfg) && Inv(cfg, s) && Exact(s, m) && Known(ApplyCommand(s, step), x)
    requires !step.CancelSucceeds? && !step.SyncReads?
    ensures ExactAt(ApplyCommand(s, step), m, x)
  {
    if step.Take? {
      TakeStepExact(cfg, s, m, step.id, x);
    } else if step.CancelDone? || step.SyncDone? {
      InvBookIds(cfg, s);
      DoneExact(s, m, step, x);
    } else {
      StartedExact(s, m, step, x);
    }
  }

  lemma CommandExact(cfg: Config, s: State, m: set<string>, step: CommandStep, x: string)
    requires Sound(cfg) && Inv(cfg, s) && Exact(s, m) && Known(ApplyCommand(s, step), x)
    ensures ExactAt(ApplyCommand(s, step), Observe(s, m, OnCommand(step)), x)
  {
    if step.CancelSucceeds? || step.SyncReads? {
      HeardExact(cfg, s, m, step, x);
    } else {
      QuietCommand(cfg, s, m, step, x);
    }
  }

  /** The record is exact after every step. */
  lemma StepExact(cfg: Config, s: State, m: set<string>, step: Step)
    requires Sound(cfg) && Inv(cfg, s) && Exact(s, m)
    ensures Exact(Apply(cfg, s, step), Observe(s, m, step))
  {
    var t := Apply(cfg, s, step);
    forall x {:trigger Known(t, x)} | Known(t, x) ensures ExactAt(t, Observe(s, m, step), x) {
      match step
      case OnVenue(v) => VenueExact(cfg, s, m, v, x);
      case OnPump(p) => PumpExact(cfg, s, m, p, x);
      case OnSubmit(u) => SubmitExact(cfg, s, m, u, x);
      case OnCommand(c) => CommandExact(cfg, s, m, c, x);
    }
  }

  lemma {:induction false} RunExact(cfg: Config, start: State, missed: set<string>, steps: seq<Step>)
    requires Sound(cfg) && Inv(cfg, start) && Exact(start, missed)
    ensures Exact(Run(cfg, start, steps), Missed(cfg, start, missed, steps))
  {
    if steps != [] {
      var before := steps[..|steps| - 1];
      RunInv(cfg, start, before);
      RunExact(cfg, start, missed, before);
      StepExact(cfg, Run(cfg, start, before), Missed(cfg, start, missed, before), steps[|steps| - 1]);
    }
  }

  // ---------------------------------------------------------------- convergence

  /** No command is running and no report is on its way. */
  predicate Quiet(s: State) {
    s.engine.phase.Idle? && s.venue.stream == [] && s.pipe.queue == [] && !s.pipe.hand.Resolved?
  }

  /**
   * In every run, whenever the queues are empty, an order placed at the exchange has the exchange's
   * status and filled size if and only if its newest report was not missed.
   */
  lemma Convergence(cfg: Config, start: State, missed: set<string>, steps: seq<Step>, x: string)
    requires Sound(cfg) && Inv(cfg, start) && Exact(start, missed)
    requires var s := Run(cfg, start, steps); Quiet(s) && Known(s, x)
    ensures var s := Run(cfg, start, steps); var owner := s.venue.placed[x].owner;
      && s.engine.book[owner].exchangeId == x
      && (s.engine.book[owner].view == Now(s, x) <==> x !in Missed(cfg, start, missed, steps))
  {
    RunInv(cfg, start, steps);
    RunExact(cfg, start, missed, steps);
    OwnerKnows(cfg, Run(cfg, start, steps), x);
  }

  /** No report of the run was dropped: the queue was never full when one was to be. */
  ghost predicate NothingDropped(cfg: Config, start: State, steps: seq<Step>) {
    steps == [] ||
    (var before := steps[..|steps| - 1];
     && NothingDropped(cfg, start, before)
     && (steps[|steps| - 1] == OnPump(Emit(true)) ==> !MayEmit(Run(cfg, start, before).pipe, true)))
  }

  lemma {:induction false} NothingMissed(cfg: Config, start: State, steps: seq<Step>)
    requires NothingDropped(cfg, start, steps)
    ensures Missed(cfg, start, {}, steps) == {}
  {
    if steps != [] {
      NothingMissed(cfg, start, steps[..|steps| - 1]);
    }
  }

  /** The engine and the exchange show the same of every order in the book that is placed. */
  ghost predicate Agree(s: State) {
    forall x {:trigger Known(s, x)} :: Known(s, x) ==> s.engine.book[s.venue.placed[x].owner].view == Now(s, x)
  }

  /** A run that drops nothing agrees with the exchange on every order whenever nothing is on its way. */
  lemma LosslessRunsAgree(cfg: Config, start: State, steps: seq<Step>)
    requires Sound(cfg) && Inv(cfg, start) && Exact(start, {}) && NothingDropped(cfg, start, steps)
    requires Quiet(Run(cfg, start, steps))
    ensures Agree(Run(cfg, start, steps))
  {
    var s := Run(cfg, start, steps);
    NothingMissed(cfg, start, steps);
    forall x {:trigger Known(s, x)} | Known(s, x) ensures s.engine.book[s.venue.placed[x].owner].view == Now(s, x) {
      Convergence(cfg, start, {}, steps, x);
    }
  }

  lemma InitialExact()
    ensures Exact(Initial(), {})
  {
  }

  /** A run may be cut after its first step. */
  lemma {:induction false} RunCons(cfg: Config, s: State, m: set<string>, step: Step, rest: seq<Step>)
    ensures Run(cfg, s, [step] + rest) == Run(cfg, Apply(cfg, s, step), rest)
    ensures Missed(cfg, s, m, [step] + rest) == Missed(cfg, Apply(cfg, s, step), Observe(s, m, step), rest)
  {
    if rest == [] {
      assert [step] + rest == [step] && [step][..0] == [];
    } else {
      RunCons(cfg, s, m, step, rest[..|rest| - 1]);
      assert ([step] + rest)[..|rest|] == [step] + rest[..|rest| - 1];
    }
  }

  lemma {:induction false} RunConcat(cfg: Config, s: State, m: set<string>, first: seq<Step>, rest: seq<Step>)
    ensures Run(cfg, s, first + rest) == Run(cfg, Run(cfg, s, first), rest)
    ensures Missed(cfg, s, m, first + rest) == Missed(cfg, Run(cfg, s, first), Missed(cfg, s, m, first), rest)
  {
    if rest == [] {
      assert first + rest == first;
    } else {
      RunConcat(cfg, s, m, first, rest[..|rest| - 1]);
      assert (first + rest)[..|first + rest| - 1] == first + rest[..|rest| - 1];
    }
  }

  // ---------------------------------------------------------------- working off what is on its way

  /** How much is on its way. */
  function Backlog(s: State): nat {
    5 * |s.venue.stream| + 2 * |s.pipe.queue| + (match s.pipe.hand case Waiting => 0 case Resolved(_, _) => 4 case Emitted(_) => 1)
  }

  /** Some step takes what is on its way one stage further; `m` changes at most by a report that is queued. */
  lemma OneStageFurther(cfg: Config, s: State, m: set<string>) returns (step: Step)
    requires s.engine.phase.Idle? && !Quiet(s) && BookIds(s.engine.book)
    ensures var t := Apply(cfg, s, step);
      && Backlog(t) < Backlog(s) && t.engine.phase.Idle?
      && t.venue.placed == s.venue.placed && t.engine.book.Keys == s.engine.book.Keys
      && (Observe(s, m, step) == m || (s.pipe.hand.Resolved? && Observe(s, m, step) == m - {s.pipe.hand.report.exchangeId}))
  {
    if s.pipe.queue != [] {
      step := TakeNext(s);
    } else if s.pipe.hand.Resolved? {
      step := OnPump(Emit(false));
    } else if s.pipe.hand.Emitted? {
      step := OnPump(Unregister);
    } else {
      step := OnPump(Resolve);
    }
  }

  lemma TakeNext(s: State) returns (step: Step)
    requires s.engine.phase.Idle? && s.pipe.queue != []
    ensures step.OnCommand? && step.c.Take? && MayTake(s, step.c.id)
  {
    if exists id :: Routes(s.engine.book, s.pipe.queue[0], id) {
      var id :| Routes(s.engine.book, s.pipe.queue[0], id);
      step := OnCommand(Take(id));
    } else {
      step := OnCommand(Take(""));
    }
  }

  /** The exchange's orders and the engine's are the same ones, and the same of them are missed. */
  ghost predicate SameOrders(s: State, m: set<string>, t: State, m': set<string>) {
    && t.venue.placed == s.venue.placed && t.engine.book.Keys == s.engine.book.Keys
    && forall x {:trigger Known(s, x)} :: Known(s, x) ==> (x in m' <==> x in m)
  }

  /** A report in the pump's hand is not of a missed order. */
  lemma HandNotMissed(s: State, m: set<string>, m': set<string>)
    requires Exact(s, m) && (m' == m || (s.pipe.hand.Resolved? && m' == m - {s.pipe.hand.report.exchangeId}))
    ensures forall x {:trigger Known(s, x)} :: Known(s, x) ==> (x in m' <==> x in m)
  {
    forall x {:trigger Known(s, x)} | Known(s, x) ensures x in m' <==> x in m {
      assert ExactAt(s, m, x);
    }
  }

  /** The pump and the engine can work off what is on its way; that alone makes up for nothing. */
  lemma {:induction false} Drain(cfg: Config, s: State, m: set<string>) returns (more: seq<Step>)
    requires Sound(cfg) && Inv(cfg, s) && Exact(s, m) && s.engine.phase.Idle?
    ensures Quiet(Run(cfg, s, more)) && SameOrders(s, m, Run(cfg, s, more), Missed(cfg, s, m, more))
    decreases Backlog(s)
  {
    if Quiet(s) {
      more := [];
    } else {
      InvBookIds(cfg, s);
      var step := OneStageFurther(cfg, s, m);
      HandNotMissed(s, m, Observe(s, m, step));
      StepInv(cfg, s, step);
      StepExact(cfg, s, m, step);
      var rest := Drain(cfg, Apply(cfg, s, step), Observe(s, m, step));
      RunCons(cfg, s, m, step, rest);
      more := [step] + rest;
      SameThroughout(s, m, Apply(cfg, s, step), Observe(s, m, step), Run(cfg, s, more), Missed(cfg, s, m, more));
    }
  }

  lemma SameThroughout(s: State, m: set<string>, t: State, m': set<string>, u: State, m'': set<string>)
    requires SameOrders(s, m, t, m') && SameOrders(t, m', u, m'')
    ensures SameOrders(s, m, u, m'')
  {
    forall x {:trigger Known(s, x)} | Known(s, x) ensures x in m'' <==> x in m {
      assert Known(t, x);
    }
  }

  /** With nothing on its way an order agrees with the exchange if and only if it is not missed. */
  lemma QuietAgreement(s: State, m: set<string>, x: string)
    requires Exact(s, m) && Quiet(s) && Known(s, x)
    ensures s.engine.book[s.venue.placed[x].owner].view == Now(s, x) <==> x !in m
  {
  }

  /**
   * A report that is dropped from a full queue leaves the engine behind for as long as nothing else happens, if and
   * only if no newer report of the order follows it and the engine is left with another view.
   */
  lemma DroppedReportDivergesIff(cfg: Config, s: State, m: set<string>) returns (more: seq<Step>)
    requires Sound(cfg) && Inv(cfg, s) && Exact(s, m) && s.engine.phase.Idle?
    requires MayEmit(s.pipe, true) && Known(s, s.pipe.hand.report.exchangeId)
    ensures var t := Run(cfg, Apply(cfg, s, OnPump(Emit(true))), more); var r := s.pipe.hand.report; var x := r.exchangeId;
      && Quiet(t) && t.venue.placed == s.venue.placed && Known(t, x)
      && (t.engine.book[t.venue.placed[x].owner].view != Now(t, x) <==> Last(s.venue.stream, x).None? && LeftWith(s, x) != r.view)
  {
    var u, m' := Apply(cfg, s, OnPump(Emit(true))), Observe(s, m, OnPump(Emit(true)));
    StepInv(cfg, s, OnPump(Emit(true)));
    StepExact(cfg, s, m, OnPump(Emit(true)));
    more := Drain(cfg, u, m');
    var x := s.pipe.hand.report.exchangeId;
    assert Known(u, x);
    ExactAfter(cfg, u, m', more);
    QuietAgreement(Run(cfg, u, more), Missed(cfg, u, m', more), x);
  }

  lemma ExactAfter(cfg: Config, s: State, m: set<string>, more: seq<Step>)
    requires Sound(cfg) && Inv(cfg, s) && Exact(s, m)
    ensures Inv(cfg, Run(cfg, s, more)) && Exact(Run(cfg, s, more), Missed(cfg, s, m, more))
  {
    RunInv(cfg, s, more);
    RunExact(cfg, s, m, more);
  }

  // ---------------------------------------------------------------- syncing

  /** The steps of a sync, and where they lead. */
  function SyncSteps(id: string): seq<Step> {
    [OnCommand(Sync(id)), OnCommand(SyncReads(0)), OnCommand(SyncDone)]
  }

  lemma ThreeSteps(cfg: Config, s: State, m: set<string>, a: Step, b: Step, c: Step)
    ensures var s1 := Apply(cfg, s, a); var s2 := Apply(cfg, s1, b);
      Run(cfg, s, [a, b, c]) == Apply(cfg, s2, c)
      && Missed(cfg, s, m, [a, b, c]) == Observe(s2, Observe(s1, Observe(s, m, a), b), c)
  {
    RunCons(cfg, s, m, a, [b, c]);
    RunCons(cfg, Apply(cfg, s, a), Observe(s, m, a), b, [c]);
    assert [a] + [b, c] == [a, b, c] && [b] + [c] == [b, c] && [c][..0] == [];
  }

  lemma SyncBegins(cfg: Config, s: State, m: set<string>, id: string)
    requires s.engine.phase.Idle? && id in s.engine.book
    ensures Apply(cfg, s, OnCommand(Sync(id))) == s.(engine := s.engine.(phase := Syncing(id)))
    ensures Observe(s, m, OnCommand(Sync(id))) == m
  {
  }

  lemma SyncHears(cfg: Config, s: State, m: set<string>, id: string, x: string)
    requires s.engine.phase == Syncing(id) && id in s.engine.book && s.engine.book[id].exchangeId == x
    requires x in s.venue.placed && s.pipe.queue == []
    ensures Apply(cfg, s, OnCommand(SyncReads(0))) == s.(engine := s.engine.(phase := Synced(id, Report(x, id, Now(s, x), 0))))
    ensures Observe(s, m, OnCommand(SyncReads(0))) == m - {x}
  {
  }

  lemma SyncEnds(cfg: Config, s: State, m: set<string>)
    requires s.engine.phase.Synced? && s.engine.phase.id in s.engine.book && s.engine.book[s.engine.phase.id].id == s.engine.phase.id
    ensures var t := Apply(cfg, s, OnCommand(SyncDone));
      t.engine.phase.Idle? && t.venue == s.venue && t.pipe == s.pipe && t.engine.book.Keys == s.engine.book.Keys
    ensures Observe(s, m, OnCommand(SyncDone)) == m
  {
    var id := s.engine.phase.id;
    assert id in s.engine.book.Keys;
  }

  /** A sync with nothing queued makes up for a missed report, and touches no other order. */
  lemma SyncRepairs(cfg: Config, s: State, m: set<string>, x: string)
    requires Sound(cfg) && Inv(cfg, s) && Quiet(s) && Known(s, x)
    ensures var more := SyncSteps(s.venue.placed[x].owner); var t := Run(cfg, s, more);
      && Quiet(t) && t.venue.placed == s.venue.placed && t.engine.book.Keys == s.engine.book.Keys
      && Missed(cfg, s, m, more) == m - {x}
  {
    var id := s.venue.placed[x].owner;
    OwnerKnows(cfg, s, x);
    var s1 := s.(engine := s.engine.(phase := Syncing(id)));
    var s2 := s1.(engine := s1.engine.(phase := Synced(id, Report(x, id, Now(s, x), 0))));
    SyncBegins(cfg, s, m, id);
    SyncHears(cfg, s1, m, id, x);
    SyncEnds(cfg, s2, m - {x});
    ThreeSteps(cfg, s, m, OnCommand(Sync(id)), OnCommand(SyncReads(0)), OnCommand(SyncDone));
  }

  /** Nothing known is missed. */
  ghost predicate NoneMissed(s: State, m: set<string>) {
    forall x {:trigger Known(s, x)} :: Known(s, x) ==> x !in m
  }

  /** Syncing the missed orders one by one makes up for all of them. */
  lemma {:induction false} SyncAll(cfg: Config, s: State, m: set<string>) returns (more: seq<Step>)
    requires Sound(cfg) && Inv(cfg, s) && Quiet(s)
    ensures var t := Run(cfg, s, more);
      && Quiet(t) && t.venue.placed == s.venue.placed && t.engine.book.Keys == s.engine.book.Keys
      && NoneMissed(t, Missed(cfg, s, m, more))
    decreases |m|
  {
    if x :| x in m && Known(s, x) {
      var first := SyncSteps(s.venue.placed[x].owner);
      SyncRepairs(cfg, s, m, x);
      RunInv(cfg, s, first);
      var rest := SyncAll(cfg, Run(cfg, s, first), m - {x});
      more := first + rest;
      RunConcat(cfg, s, m, first, rest);
    } else {
      more := [];
    }
  }

  lemma NoneMissedAgree(s: State, m: set<string>)
    requires Exact(s, m) && Quiet(s) && NoneMissed(s, m)
    ensures Agree(s)
  {
    forall x {:trigger Known(s, x)} | Known(s, x) ensures s.engine.book[s.venue.placed[x].owner].view == Now(s, x) {
      QuietAgreement(s, m, x);
    }
  }

  /**
   * From every idle state a run can reach, whatever reports were dropped, pump and engine steps and
   * syncs lead to one where the engine agrees with the exchange, which has not moved meanwhile.
   */
  lemma AgreementIsReachable(cfg: Config, start: State, missed: set<string>, steps: seq<Step>) returns (more: seq<Step>)
    requires Sound(cfg) && Inv(cfg, start) && Exact(start, missed) && Run(cfg, start, steps).engine.phase.Idle?
    ensures var s := Run(cfg, start, steps); var t := Run(cfg, s, more);
      Agree(t) && t.venue.placed == s.venue.placed && t.engine.book.Keys == s.engine.book.Keys
  {
    var s, m := Run(cfg, start, steps), Missed(cfg, start, missed, steps);
    ExactAfter(cfg, start, missed, steps);
    var first := Drain(cfg, s, m);
    var u, m' := Run(cfg, s, first), Missed(cfg, s, m, first);
    ExactAfter(cfg, s, m, first);
    var rest := SyncAll(cfg, u, m');
    ExactAfter(cfg, u, m', rest);
    NoneMissedAgree(Run(cfg, u, rest), Missed(cfg, u, m', rest));
    RunConcat(cfg, s, m, first, rest);
    more := first + rest;
  }

  // ---------------------------------------------------------------- two runs

  ghost predicate Reached(cfg: Config, s: State) {
    exists steps :: Run(cfg, Initial(), steps) == s
  }

  lemma Advance(cfg: Config, s: State, step: Step) returns (t: State)
    requires Reached(cfg, s)
    ensures t == Apply(cfg, s, step) && Reached(cfg, t)
  {
    var steps :| Run(cfg, Initial(), steps) == s;
    t := Apply(cfg, s, step);
    assert (steps + [step])[..|steps|] == steps;
    assert Run(cfg, Initial(), steps + [step]) == t;
  }

  /** An order open at the exchange as `x`, with nothing on its way. */
  predicate OpenAs(cfg: Config, s: State, id: string, x: string) {
    && s.venue.stream == [] && s.pipe.queue == [] && s.pipe.hand.Waiting? && s.engine.phase.Idle?
    && cfg.tag(id) in s.pipe.tags && s.pipe.tags[cfg.tag(id)] == id
    && Known(s, x) && s.venue.placed[x].owner == id && s.venue.placed[x].tag == cfg.tag(id)
    && s.engine.book[id].id == id && s.engine.book[id].exchangeId == x
    && Now(s, x).status == Submitted && s.engine.book[id].view == Now(s, x)
  }

  /** An order placed at the exchange as `x`, unreported, that the engine has not stored the ID of yet. */
  lemma PlacedOrder(cfg: Config, o: Order, x: string) returns (s: State)
    requires cfg.local(o.id) && o.exchangeId == "" && x != ""
    ensures Reached(cfg, s) && s.engine.phase == Placed(o.id, x) && s.venue.stream == [] && s.pipe == Initial().pipe
    ensures Known(s, x) && s.venue.placed[x] == Placement(o.id, cfg.tag(o.id), View(Submitted, o.view.filled))
    ensures s.engine.book[o.id].id == o.id && s.engine.book[o.id].view.filled == o.view.filled
  {
    assert Run(cfg, Initial(), []) == Initial();
    s := Advance(cfg, Initial(), OnSubmit(Accept(o, 0)));
    s := Advance(cfg, s, OnSubmit(PlaceSucceeds(x, View(Submitted, o.view.filled), true, 0)));
  }

  lemma OpenOrder(cfg: Config, o: Order, x: string) returns (s: State)
    requires cfg.local(o.id) && o.exchangeId == "" && x != ""
    ensures OpenAs(cfg, s, o.id, x) && Reached(cfg, s)
  {
    s := PlacedOrder(cfg, o, x);
    s := Advance(cfg, s, OnSubmit(Register));
    s := Advance(cfg, s, OnSubmit(Finish(0)));
  }

  /** A cancel acknowledged while a report of a partial fill is still on the stream. */
  lemma CancelOvertakes(cfg: Config, o: Order, x: string) returns (s: State)
    requires cfg.local(o.id) && o.exchangeId == "" && x != "" && o.id != "" && cfg.tag(o.id) != ""
    ensures Reached(cfg, s) && s.engine.phase.Idle? && s.pipe.hand.Waiting? && s.pipe.queue == []
    ensures s.venue.stream != [] && s.venue.stream[0] == Report(x, cfg.tag(o.id), View(PartialFilled, "1"), 1)
    ensures cfg.tag(o.id) in s.pipe.tags && s.pipe.tags[cfg.tag(o.id)] == o.id
    ensures o.id in s.engine.book && s.engine.book[o.id].id == o.id && s.engine.book[o.id].view.status == Cancelled
  {
    s := OpenOrder(cfg, o, x);
    s := Advance(cfg, s, OnVenue(Moves(x, View(PartialFilled, "1"), 1)));
    s := CancelNow(cfg, s, o.id, 2);
  }

  lemma CancelNow(cfg: Config, s: State, id: string, at: int) returns (t: State)
    requires Reached(cfg, s) && s.engine.phase.Idle? && Open(s, id)
    requires s.engine.book[id].id == id && !Terminal(s.engine.book[id].view.status)
    ensures Reached(cfg, t) && t.engine.phase.Idle? && t.pipe == s.pipe && s.venue.stream <= t.venue.stream
    ensures id in t.engine.book && t.engine.book[id].id == id && t.engine.book[id].view.status == Cancelled
  {
    t := Advance(cfg, s, OnCommand(Cancel(id)));
    t := Advance(cfg, t, OnCommand(CancelSucceeds(at)));
    t := Advance(cfg, t, OnCommand(CancelDone(at)));
  }

  /** A cancelled order can be open again for a while: the acknowledgement overtakes an older report. */
  lemma CancelledOrderReopens(cfg: Config, o: Order, x: string) returns (s: State, t: State)
    requires cfg.local(o.id) && o.exchangeId == "" && x != "" && o.id != "" && cfg.tag(o.id) != ""
    ensures Reached(cfg, s) && o.id in s.engine.book && s.engine.book[o.id].view.status == Cancelled
    ensures Reached(cfg, t) && o.id in t.engine.book && t.engine.book[o.id].view.status == PartialFilled
    ensures t.venue.placed == s.venue.placed
  {
    s := CancelOvertakes(cfg, o, x);
    t := Advance(cfg, s, OnPump(Resolve));
    t := Advance(cfg, t, OnPump(Emit(false)));
    t := Advance(cfg, t, OnCommand(Take(o.id)));
  }

  /** `k` reports of `x` on the queue for its order, the last of them current, and no other on its way. */
  predicate Queued(cfg: Config, s: State, id: string, x: string, k: nat) {
    && s.venue.stream == [] && s.pipe.hand.Waiting? && s.engine.phase.Idle?
    && cfg.tag(id) in s.pipe.tags && s.pipe.tags[cfg.tag(id)] == id
    && Known(s, x) && s.venue.placed[x].owner == id && s.venue.placed[x].tag == cfg.tag(id)
    && s.engine.book[id].id == id && s.engine.book[id].exchangeId == x
    && |s.pipe.queue| == k && (forall i :: 0 <= i < k ==> Of(s.pipe.queue[i], id, x))
    && (if k == 0 then Now(s, x).status == Submitted else s.pipe.queue[k - 1].view == Now(s, x))
  }

  /** A resolved report of exchange order `x`, placed for order `id`. */
  predicate Of(r: Report, id: string, x: string) {
    r.exchangeId == x && r.key == id && r.view.filled != "3"
  }

  /** One more fill of `x`, resolved and about to be queued or dropped. */
  lemma FillResolved(cfg: Config, s: State, id: string, x: string, k: nat, filled: string) returns (t: State)
    requires Reached(cfg, s) && Queued(cfg, s, id, x, k) && id != "" && cfg.tag(id) != ""
    requires View(PartialFilled, filled) != Now(s, x)
    ensures Reached(cfg, t) && t.engine == s.engine && t.pipe.queue == s.pipe.queue && t.pipe.tags == s.pipe.tags
    ensures t.venue == Venue(s.venue.placed[x := s.venue.placed[x].(view := View(PartialFilled, filled))], [])
    ensures t.pipe.hand == Resolved(Report(x, id, View(PartialFilled, filled), 0), cfg.tag(id))
  {
    t := Advance(cfg, s, OnVenue(Moves(x, View(PartialFilled, filled), 0)));
    t := Advance(cfg, t, OnPump(Resolve));
  }

  lemma OneMoreQueued(cfg: Config, s: State, id: string, x: string, k: nat) returns (t: State)
    requires Reached(cfg, s) && Queued(cfg, s, id, x, k) && id != "" && cfg.tag(id) != "" && k < QUEUE_CAPACITY
    ensures Reached(cfg, t) && Queued(cfg, t, id, x, k + 1)
  {
    t := FillResolved(cfg, s, id, x, k, if Now(s, x).filled == "1" then "2" else "1");
    t := Advance(cfg, t, OnPump(Emit(false)));
  }

  /** Fills of one order can take up the whole buffer. */
  lemma {:induction false} FillQueue(cfg: Config, o: Order, x: string, k: nat) returns (s: State)
    requires cfg.local(o.id) && o.exchangeId == "" && x != "" && o.id != "" && cfg.tag(o.id) != ""
    requires k <= QUEUE_CAPACITY
    ensures Reached(cfg, s) && Queued(cfg, s, o.id, x, k)
  {
    if k == 0 {
      s := OpenOrder(cfg, o, x);
    } else {
      s := FillQueue(cfg, o, x, k - 1);
      s := OneMoreQueued(cfg, s, o.id, x, k - 1);
    }
  }

  /** A full buffer, and the next report dropped. */
  lemma FullAndDropped(cfg: Config, o: Order, x: string) returns (s: State)
    requires cfg.local(o.id) && o.exchangeId == "" && x != "" && o.id != "" && cfg.tag(o.id) != ""
    ensures Reached(cfg, s) && Behind(s, o.id, x) && |s.pipe.queue| == EVENT_BUFFER
    ensures Now(s, x) == View(PartialFilled, "3")
  {
    s := FillQueue(cfg, o, x, EVENT_BUFFER);
    s := FillResolved(cfg, s, o.id, x, EVENT_BUFFER, "3");
    s := Advance(cfg, s, OnPump(Emit(true)));
  }

  /** Nothing but queued older reports of `x` is on its way. */
  predicate Behind(s: State, id: string, x: string) {
    && s.venue.stream == [] && s.pipe.hand.Waiting? && s.engine.phase.Idle?
    && Known(s, x) && s.venue.placed[x].owner == id
    && s.engine.book[id].id == id && s.engine.book[id].exchangeId == x
    && forall i :: 0 <= i < |s.pipe.queue| ==> Of(s.pipe.queue[i], id, x)
  }

  /** Taking them all leaves the engine with the last of them. */
  lemma {:induction false} TakeAll(cfg: Config, s: State, id: string, x: string) returns (t: State)
    requires Reached(cfg, s) && Behind(s, id, x) && s.pipe.queue != [] && id != ""
    ensures Reached(cfg, t) && Quiet(t) && t.venue == s.venue
    ensures id in t.engine.book && t.engine.book[id].view.filled != "3"
    decreases |s.pipe.queue|
  {
    t := Advance(cfg, s, OnCommand(Take(id)));
    if t.pipe.queue != [] {
      t := TakeAll(cfg, t, id, x);
    }
  }

  /**
   * A sync made too early is undone: with the buffer full a report was dropped, a sync reads what it
   * said, and the older reports still queued overwrite that.
   */
  lemma EarlySyncIsUndone(cfg: Config, o: Order, x: string) returns (s: State, t: State)
    requires cfg.local(o.id) && o.exchangeId == "" && x != "" && o.id != "" && cfg.tag(o.id) != ""
    ensures Reached(cfg, s) && Known(s, x) && s.venue.placed[x].owner == o.id && s.engine.book[o.id].view == Now(s, x)
    ensures Reached(cfg, t) && Quiet(t) && t.venue.placed == s.venue.placed
    ensures o.id in t.engine.book && t.engine.book[o.id].view != Now(s, x)
  {
    s := FullAndDropped(cfg, o, x);
    s := Advance(cfg, s, OnCommand(Sync(o.id)));
    s := Advance(cfg, s, OnCommand(SyncReads(0)));
    s := Advance(cfg, s, OnCommand(SyncDone));
    t := TakeAll(cfg, s, o.id, x);
  }
}
