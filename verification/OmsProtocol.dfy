/**
 * The order protocol as a step system: the exchange, the user-stream pump with its tag table, the
 * event queue and the single-threaded order engine with its write-through store, in every interleaving.
 */
module OmsProtocol {
  import opened Wrappers
  import opened Orders

  /**
   * `local` is the set of IDs the engine generates, `tag` and `decode` the exchange's codec for
   * them; `decode` gives "" for a tag it cannot read.
   */
  datatype Config = Config(tag: string -> string, decode: string -> string, local: string -> bool, maxRetries: nat)

  /** An exchange order: whom it was placed for ("" if placed elsewhere), its trimmed tag, its state. */
  datatype Placement = Placement(owner: string, tag: string, view: View)

  type Placements = map<string, Placement>

  datatype Venue = Venue(placed: Placements, stream: seq<Report>)

  /** What the pump goroutine is in the middle of. */
  datatype Hand =
    | Waiting
    | Resolved(report: Report, tag: string)
    | Emitted(tag: string)

  /** The executor's event buffer, the engine's behind it, and the event on its way between them. */
  const EVENT_BUFFER := 64
  const ENGINE_BUFFER := 100
  const QUEUE_CAPACITY := EVENT_BUFFER + 1 + ENGINE_BUFFER

  /** `queue` is what both buffers hold. */
  datatype Pipe = Pipe(hand: Hand, queue: seq<Report>, tags: map<string, string>)

  /** Where the engine's current command stands. */
  datatype Phase =
    | Idle
    | Placing(id: string, attempt: nat)
    | Placed(id: string, exchangeId: string)
    | Tagged(id: string, exchangeId: string)
    | Cancelling(id: string)
    | CancelAcked(id: string)
    | Syncing(id: string)
    | Synced(id: string, report: Report)

  /**
   * The engine's counters, with what the caller can see of each order: how often its ID was
   * accepted, how often it was placed, and the status behind each reply.
   */
  datatype Stats = Stats(
    submitted: int, succeeded: int, rejected: int, failed: int, retries: int,
    accepts: map<string, int>, places: map<string, int>, replies: map<string, seq<Status>>)

  /** `up` tells whether saves succeed; `stale` are the orders whose last save failed. */
  datatype Engine = Engine(book: Book, table: Table, up: bool, stale: set<string>, phase: Phase, stats: Stats)

  datatype State = State(venue: Venue, pipe: Pipe, engine: Engine)

  datatype VenueStep =
    | Moves(exchangeId: string, view: View, at: int)
    | Foreign(exchangeId: string, tag: string, view: View)

  datatype PumpStep =
    | Resolve
    | Emit(dropped: bool)
    | Unregister

  /** `silent`: the exchange does not report the new order. */
  datatype SubmitStep =
    | Accept(order: Order, at: int)
    | Reject(at: int)
    | PlaceFails(at: int)
    | PlaceSucceeds(exchangeId: string, view: View, silent: bool, at: int)
    | Register
    | Finish(at: int)

  datatype CommandStep =
    | Take(id: string)
    | Cancel(id: string)
    | CancelSucceeds(at: int)
    | CancelDone(at: int)
    | Sync(id: string)
    | SyncReads(at: int)
    | SyncDone
    | Fails
    | Flush
    | StoreTurns(up: bool)

  datatype Step = OnVenue(v: VenueStep) | OnPump(p: PumpStep) | OnSubmit(u: SubmitStep) | OnCommand(c: CommandStep)

  // ---------------------------------------------------------------- the exchange

  /** A change of an exchange order's state, with its report. */
  function Moved(v: Venue, x: string, view: View, at: int): Venue
    requires x in v.placed
  {
    Venue(v.placed[x := v.placed[x].(view := view)], v.stream + [Report(x, v.placed[x].tag, view, at)])
  }

  /** A tag no local ID has and that spells none. */
  ghost predicate ForeignTag(cfg: Config, tag: string) {
    && (forall id {:trigger cfg.local(id)} :: cfg.local(id) ==> cfg.tag(id) != tag)
    && !cfg.local(cfg.decode(tag))
  }

  ghost function ApplyVenue(cfg: Config, s: State, step: VenueStep): State {
    match step
    case Moves(x, view, at) =>
      if x in s.venue.placed && view != s.venue.placed[x].view then s.(venue := Moved(s.venue, x, view, at)) else s
    case Foreign(x, tag, view) =>
      if x != "" && x !in s.venue.placed && ForeignTag(cfg, tag) then
        s.(venue := s.venue.(placed := s.venue.placed[x := Placement("", tag, view)]))
      else s
  }

  // ---------------------------------------------------------------- the pump

  /** The pump's lookup: the registered ID, else what the tag itself spells. */
  function LookUp(cfg: Config, tags: map<string, string>, tag: string): string {
    if tag == "" then "" else if tag in tags then tags[tag] else cfg.decode(tag)
  }

  function Resolving(cfg: Config, p: Pipe, r: Report): Pipe {
    p.(hand := Resolved(r.(key := LookUp(cfg, p.tags, r.key)), r.key))
  }

  /**
   * emitOrderEvent drops the report exactly when the executor's buffer is full, which needs that many
   * events on the queue and is certain once the engine's buffer is full too.
   */
  predicate MayEmit(p: Pipe, dropped: bool) {
    p.hand.Resolved? && if dropped then |p.queue| >= EVENT_BUFFER else |p.queue| < QUEUE_CAPACITY
  }

  function Emitting(p: Pipe, dropped: bool): Pipe
    requires p.hand.Resolved?
  {
    var r := p.hand.report;
    var hand := if p.hand.tag != "" && Terminal(r.view.status) then Emitted(p.hand.tag) else Waiting;
    if dropped then p.(hand := hand) else p.(hand := hand, queue := p.queue + [r])
  }

  /** A terminal report's tag is forgotten. */
  function Unregistering(p: Pipe): Pipe {
    if p.hand.Emitted? then p.(tags := p.tags - {p.hand.tag}, hand := Waiting) else p
  }

  function ApplyPump(cfg: Config, s: State, step: PumpStep): State {
    var p := s.pipe;
    match step
    case Resolve =>
      if p.hand.Waiting? && s.venue.stream != [] then
        State(s.venue.(stream := s.venue.stream[1..]), Resolving(cfg, p, s.venue.stream[0]), s.engine)
      else s
    case Emit(dropped) => if MayEmit(p, dropped) then s.(pipe := Emitting(p, dropped)) else s
    case Unregister => s.(pipe := Unregistering(p))
  }

  // ---------------------------------------------------------------- submitting

  /** sendOrderUpdate: memory and, if the store works, the row. */
  function Put(e: Engine, o: Order): Engine {
    if e.up then e.(book := e.book[o.id := o], table := e.table[o.id := RowOf(o)], stale := e.stale - {o.id})
    else e.(book := e.book[o.id := o], stale := e.stale + {o.id})
  }

  function Count(m: map<string, int>, id: string): int {
    if id in m then m[id] else 0
  }

  function Bump(m: map<string, int>, id: string): map<string, int> {
    m[id := Count(m, id) + 1]
  }

  function Replies(st: Stats, id: string): seq<Status> {
    if id in st.replies then st.replies[id] else []
  }

  function Told(st: Stats, id: string, status: Status): Stats {
    st.(replies := st.replies[id := Replies(st, id) + [status]])
  }

  function Accepted(o: Order, at: int): Order {
    o.(market := if o.market == Unset then Perp else o.market,
       view := View(Pending, o.view.filled), createdAt := at, updatedAt := at)
  }

  function Accepting(e: Engine, o: Order, at: int): Engine {
    Put(e, Accepted(o, at)).(
      phase := Placing(o.id, 0),
      stats := e.stats.(submitted := e.stats.submitted + 1, accepts := Bump(e.stats.accepts, o.id)))
  }

  function WithStatus(o: Order, status: Status, at: int): Order {
    o.(view := View(status, o.view.filled), updatedAt := at)
  }

  /** handleSubmitError and the reply. */
  function Rejecting(e: Engine, id: string, at: int): Engine
    requires id in e.book
  {
    Put(e, WithStatus(e.book[id], Status.Rejected, at)).(
      phase := Idle,
      stats := Told(e.stats.(rejected := e.stats.rejected + 1, failed := e.stats.failed + 1), id, Status.Rejected))
  }

  /** One Place call; every one but the first is a retry. */
  function Counted(e: Engine, id: string, attempt: nat): Engine {
    e.(stats := e.stats.(places := Bump(e.stats.places, id), retries := e.stats.retries + if attempt > 0 then 1 else 0))
  }

  function Failing(cfg: Config, e: Engine, id: string, attempt: nat, at: int): Engine
    requires id in e.book
  {
    var e1 := Counted(e, id, attempt);
    if attempt < cfg.maxRetries then e1.(phase := Placing(id, attempt + 1)) else Rejecting(e1, id, at)
  }

  /** The exchange side of a successful Place. */
  function Opened(cfg: Config, v: Venue, id: string, x: string, view: View, silent: bool, at: int): Venue {
    var tag := cfg.tag(id);
    Venue(v.placed[x := Placement(id, tag, view)], if silent then v.stream else v.stream + [Report(x, tag, view, at)])
  }

  /** handleSubmitSuccess and the reply. */
  function Finishing(e: Engine, id: string, x: string, at: int): Engine
    requires id in e.book
  {
    Put(e, WithStatus(e.book[id], Submitted, at).(exchangeId := x)).(
      phase := Idle,
      stats := Told(e.stats.(succeeded := e.stats.succeeded + 1), id, Submitted))
  }

  /** No exchange order was placed for this ID: IDs are generated once and never again. */
  ghost predicate Unplaced(v: Venue, id: string) {
    forall x :: x in v.placed ==> v.placed[x].owner != id
  }

  /** A submit is rejected before its first attempt, or before any later one when the run's context ends. */
  ghost function ApplySubmit(cfg: Config, s: State, step: SubmitStep): State {
    var e := s.engine;
    match step
    case Accept(o, at) =>
      if e.phase.Idle? && cfg.local(o.id) && o.exchangeId == "" && o.id !in e.book && Unplaced(s.venue, o.id) then
        s.(engine := Accepting(e, o, at))
      else s
    case Reject(at) =>
      if e.phase.Placing? && e.phase.id in e.book then s.(engine := Rejecting(e, e.phase.id, at)) else s
    case PlaceFails(at) =>
      if e.phase.Placing? && e.phase.id in e.book then s.(engine := Failing(cfg, e, e.phase.id, e.phase.attempt, at)) else s
    case PlaceSucceeds(x, view, silent, at) =>
      if e.phase.Placing? && e.phase.id in e.book && x != "" && x !in s.venue.placed
        && (silent ==> view == View(Submitted, e.book[e.phase.id].view.filled)) then
        s.(venue := Opened(cfg, s.venue, e.phase.id, x, view, silent, at),
           engine := Counted(e, e.phase.id, e.phase.attempt).(phase := Placed(e.phase.id, x)))
      else s
    case Register =>
      if e.phase.Placed? then
        s.(pipe := s.pipe.(tags := s.pipe.tags[cfg.tag(e.phase.id) := e.phase.id]),
           engine := e.(phase := Tagged(e.phase.id, e.phase.exchangeId)))
      else s
    case Finish(at) =>
      if e.phase.Tagged? && e.phase.id in e.book then s.(engine := Finishing(e, e.phase.id, e.phase.exchangeId, at)) else s
  }

  // ---------------------------------------------------------------- events, cancels, syncs, flushes

  predicate Open(s: State, id: string) {
    id in s.engine.book && s.engine.book[id].exchangeId in s.venue.placed
  }

  /** applyOrderEvent on the queue's head; an event for no order is skipped. */
  function Taking(s: State, id: string): State
    requires s.pipe.queue != []
  {
    var r := s.pipe.queue[0];
    var s1 := s.(pipe := s.pipe.(queue := s.pipe.queue[1..]));
    if Routes(s.engine.book, r, id) then s1.(engine := Put(s.engine, WithReport(s.engine.book[id], r))) else s1
  }

  /** A successful cancel leaves the exchange order cancelled, with a report if that is news. */
  function CancelAtVenue(v: Venue, x: string, at: int): Venue
    requires x in v.placed
  {
    var was := v.placed[x].view;
    if was.status == Cancelled then v else Moved(v, x, View(Cancelled, was.filled), at)
  }

  function Rows(book: Book): Table {
    map id | id in book :: RowOf(book[id])
  }

  function Flushed(e: Engine): Engine {
    if e.up then e.(table := e.table + Rows(e.book), stale := {}) else e
  }

  /** The next event goes to `id`, or to no order at all. */
  ghost predicate MayTake(s: State, id: string) {
    && s.engine.phase.Idle? && s.pipe.queue != []
    && (Routes(s.engine.book, s.pipe.queue[0], id) || forall other :: !Routes(s.engine.book, s.pipe.queue[0], other))
  }

  ghost function ApplyCommand(s: State, step: CommandStep): State {
    var e := s.engine;
    match step
    case Take(id) => if MayTake(s, id) then Taking(s, id) else s
    case Cancel(id) =>
      if e.phase.Idle? && id in e.book && !Terminal(e.book[id].view.status) then s.(engine := e.(phase := Cancelling(id))) else s
    case CancelSucceeds(at) =>
      if e.phase.Cancelling? && Open(s, e.phase.id) then
        s.(venue := CancelAtVenue(s.venue, e.book[e.phase.id].exchangeId, at), engine := e.(phase := CancelAcked(e.phase.id)))
      else s
    case CancelDone(at) =>
      if e.phase.CancelAcked? && e.phase.id in e.book then
        s.(engine := Put(e, WithStatus(e.book[e.phase.id], Cancelled, at)).(phase := Idle))
      else s
    case Sync(id) => if e.phase.Idle? && id in e.book then s.(engine := e.(phase := Syncing(id))) else s
    case SyncReads(at) =>
      if e.phase.Syncing? && Open(s, e.phase.id) then
        var x := e.book[e.phase.id].exchangeId;
        s.(engine := e.(phase := Synced(e.phase.id, Report(x, e.phase.id, s.venue.placed[x].view, at))))
      else s
    case SyncDone =>
      if e.phase.Synced? && e.phase.id in e.book then
        s.(engine := Put(e, WithReport(e.book[e.phase.id], e.phase.report)).(phase := Idle))
      else s
    case Fails => if e.phase.Cancelling? || e.phase.Syncing? then s.(engine := e.(phase := Idle)) else s
    case Flush => if e.phase.Idle? then s.(engine := Flushed(e)) else s
    case StoreTurns(up) => s.(engine := e.(up := up))
  }

  /** One step; a step that is not possible in this state changes nothing. */
  ghost function Apply(cfg: Config, s: State, step: Step): State {
    match step
    case OnVenue(v) => ApplyVenue(cfg, s, v)
    case OnPump(p) => ApplyPump(cfg, s, p)
    case OnSubmit(u) => ApplySubmit(cfg, s, u)
    case OnCommand(c) => ApplyCommand(s, c)
  }

  /**
   * A resolved report may be dropped exactly while 64 or more are queued; it may be queued exactly while
   * fewer than 165 are: the executor's 64, the one the forwarder holds and the engine's 100.
   */
  lemma EmitsIff(cfg: Config, s: State, dropped: bool)
    requires s.pipe.hand.Resolved?
    ensures var t, n := Apply(cfg, s, OnPump(Emit(dropped))), |s.pipe.queue|;
      && (!dropped && n < 165 ==> t.pipe.queue == s.pipe.queue + [s.pipe.hand.report] && !t.pipe.hand.Resolved?)
      && (dropped && n >= 64 ==> t.pipe.queue == s.pipe.queue && !t.pipe.hand.Resolved?)
      && ((dropped && n < 64) || (!dropped && n >= 165) ==> t == s)
  {
  }

  const NO_STATS := Stats(0, 0, 0, 0, 0, map[], map[], map[])

  /** Nothing known, nothing placed, nothing stored. */
  function Initial(): State {
    State(Venue(map[], []), Pipe(Waiting, [], map[]), Engine(map[], map[], true, {}, Idle, NO_STATS))
  }

  /** A run may begin with orders reloaded from the store and others already at the exchange. */
  ghost function Run(cfg: Config, start: State, steps: seq<Step>): State {
    if steps == [] then start else Apply(cfg, Run(cfg, start, steps[..|steps| - 1]), steps[|steps| - 1])
  }
}
