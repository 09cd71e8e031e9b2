/** Every report reaches the order it is about: the identity invariant of the order protocol. */
module OmsRouting {
  import opened Orders
  import opened OmsProtocol
  import opened GateText

  /** The engine's IDs have tags of their own that decode to them or to nothing. */
  ghost predicate Sound(cfg: Config) {
    && (forall id {:trigger cfg.local(id)} :: cfg.local(id) ==>
        id != "" && cfg.tag(id) != "" && (cfg.decode(cfg.tag(id)) == "" || cfg.decode(cfg.tag(id)) == id))
    && (forall a, b {:trigger cfg.local(a), cfg.local(b)} :: cfg.local(a) && cfg.local(b) && cfg.tag(a) == cfg.tag(b) ==> a == b)
  }

  /** The command that is placing order `owner` at the exchange as `x` has not stored `x` yet. */
  predicate InPlacement(phase: Phase, owner: string, x: string) {
    phase == Placed(owner, x) || phase == Tagged(owner, x)
  }

  /** Orders are local, and a stored exchange ID is that of an exchange order placed for them. */
  ghost predicate BookOk(cfg: Config, book: Book, ex: Placements) {
    forall id :: id in book ==>
      && book[id].id == id && cfg.local(id)
      && (book[id].exchangeId != "" ==> book[id].exchangeId in ex && ex[book[id].exchangeId].owner == id)
  }

  ghost predicate OwnedOk(cfg: Config, x: string, p: Placement, book: Book, phase: Phase) {
    && cfg.local(p.owner) && p.tag == cfg.tag(p.owner)
    && (p.owner in book ==> book[p.owner].exchangeId == x || InPlacement(phase, p.owner, x))
  }

  /**
   * An owned exchange order carries its owner's tag, and its owner, unless it was not reloaded,
   * knows it or is being placed.
   */
  ghost predicate PlacedOk(cfg: Config, ex: Placements, book: Book, phase: Phase) {
    forall x :: x in ex ==>
      x != "" && (if ex[x].owner == "" then ForeignTag(cfg, ex[x].tag) else OwnedOk(cfg, x, ex[x], book, phase))
  }

  ghost predicate TagsOk(cfg: Config, tags: map<string, string>) {
    forall t :: t in tags ==> cfg.local(tags[t]) && t == cfg.tag(tags[t])
  }

  /** A report on the user stream carries its order's tag. */
  ghost predicate StreamOk(stream: seq<Report>, ex: Placements) {
    forall i :: 0 <= i < |stream| ==> stream[i].exchangeId in ex && stream[i].key == ex[stream[i].exchangeId].tag
  }

  /** A resolved report names its own order or none; one of a foreign order names no order of ours. */
  predicate Attributed(cfg: Config, r: Report, ex: Placements) {
    && r.exchangeId in ex
    && (if ex[r.exchangeId].owner == "" then !cfg.local(r.key) else r.key == "" || r.key == ex[r.exchangeId].owner)
  }

  ghost predicate QueueOk(cfg: Config, queue: seq<Report>, ex: Placements) {
    forall i :: 0 <= i < |queue| ==> Attributed(cfg, queue[i], ex)
  }

  predicate HandOk(cfg: Config, hand: Hand, ex: Placements) {
    hand.Resolved? ==> Attributed(cfg, hand.report, ex)
  }

  predicate PhaseOk(cfg: Config, phase: Phase, book: Book, ex: Placements) {
    match phase
    case Idle => true
    case Placing(id, k) => id in book && book[id].exchangeId == "" && k <= cfg.maxRetries
    case Placed(id, x) => id in book && book[id].exchangeId == "" && x in ex && ex[x].owner == id
    case Tagged(id, x) => id in book && book[id].exchangeId == "" && x in ex && ex[x].owner == id
    case Cancelling(id) => id in book && !Terminal(book[id].view.status)
    case CancelAcked(id) => id in book && book[id].exchangeId in ex && !Terminal(book[id].view.status)
    case Syncing(id) => id in book
    case Synced(id, r) => id in book && r.key == id && r.exchangeId == book[id].exchangeId && r.exchangeId in ex
  }

  /** The engine's side of the invariant: its book, the exchange orders' owners, its phase. */
  ghost predicate EngineInv(cfg: Config, e: Engine, ex: Placements) {
    BookOk(cfg, e.book, ex) && PlacedOk(cfg, ex, e.book, e.phase) && PhaseOk(cfg, e.phase, e.book, ex)
  }

  /** The reports' side: those on the stream, in the pump's hand and in the queue. */
  ghost predicate ReportsInv(cfg: Config, v: Venue, p: Pipe) {
    StreamOk(v.stream, v.placed) && QueueOk(cfg, p.queue, v.placed) && HandOk(cfg, p.hand, v.placed) && TagsOk(cfg, p.tags)
  }

  ghost predicate Inv(cfg: Config, s: State) {
    EngineInv(cfg, s.engine, s.venue.placed) && ReportsInv(cfg, s.venue, s.pipe)
  }

  // ---------------------------------------------------------------- routing

  /** Resolving a tag never yields a wrong local ID, whatever is registered at that moment. */
  lemma LookUpSound(cfg: Config, tags: map<string, string>, x: string, ex: Placements, e: Engine)
    requires Sound(cfg) && PlacedOk(cfg, ex, e.book, e.phase) && TagsOk(cfg, tags) && x in ex
    ensures Attributed(cfg, Report(x, LookUp(cfg, tags, ex[x].tag), ex[x].view, 0), ex)
  {
    var p := ex[x];
    if p.tag in tags {
      assert cfg.local(tags[p.tag]) && p.tag == cfg.tag(tags[p.tag]);
    }
  }

  /** A queued report of an order in the book routes to that order and to nothing else; any other nowhere. */
  lemma RoutesToOwner(cfg: Config, e: Engine, ex: Placements, r: Report, id: string)
    requires Sound(cfg) && EngineInv(cfg, e, ex) && Attributed(cfg, r, ex) && e.phase.Idle?
    ensures Routes(e.book, r, id) <==> id in e.book && id == ex[r.exchangeId].owner
  {
  }

  // ---------------------------------------------------------------- the invariant

  /** Moving an exchange order to another view keeps every identity. */
  lemma MovedInv(cfg: Config, s: State, x: string, view: View, at: int)
    requires Inv(cfg, s) && x in s.venue.placed
    ensures Inv(cfg, s.(venue := Moved(s.venue, x, view, at)))
  {
    var v := Moved(s.venue, x, view, at);
    assert StreamOk(v.stream, v.placed);
    assert QueueOk(cfg, s.pipe.queue, v.placed);
  }

  lemma VenueInv(cfg: Config, s: State, step: VenueStep)
    requires Inv(cfg, s)
    ensures Inv(cfg, ApplyVenue(cfg, s, step))
  {
    match step
    case Moves(x, view, at) => if x in s.venue.placed { MovedInv(cfg, s, x, view, at); }
    case Foreign(x, tag, view) =>
  }

  lemma PumpInv(cfg: Config, s: State, step: PumpStep)
    requires Sound(cfg) && Inv(cfg, s)
    ensures Inv(cfg, ApplyPump(cfg, s, step))
  {
    if step.Resolve? && s.venue.stream != [] {
      LookUpSound(cfg, s.pipe.tags, s.venue.stream[0].exchangeId, s.venue.placed, s.engine);
    }
  }

  /** Replacing an order by one with the same identity, outside a placement, keeps every identity. */
  lemma PutInv(cfg: Config, e: Engine, ex: Placements, o: Order, e': Engine)
    requires EngineInv(cfg, e, ex) && o.id in e.book && o.exchangeId == e.book[o.id].exchangeId
    requires !e.phase.Placed? && !e.phase.Tagged?
    requires e'.book == e.book[o.id := o] && e'.phase.Idle?
    ensures EngineInv(cfg, e', ex)
  {
  }

  lemma AcceptInv(cfg: Config, e: Engine, ex: Placements, o: Order, at: int)
    requires EngineInv(cfg, e, ex) && e.phase.Idle? && cfg.local(o.id) && o.exchangeId == "" && o.id !in e.book
    requires forall x :: x in ex ==> ex[x].owner != o.id
    ensures EngineInv(cfg, Accepting(e, o, at), ex)
  {
  }

  lemma PlaceSucceedsInv(cfg: Config, s: State, id: string, x: string, view: View, silent: bool, at: int, s': State)
    requires Sound(cfg) && Inv(cfg, s) && s.engine.phase.Placing? && s.engine.phase.id == id
    requires x != "" && x !in s.venue.placed
    requires s'.venue == Opened(cfg, s.venue, id, x, view, silent, at) && s'.pipe == s.pipe
    requires s'.engine.book == s.engine.book && s'.engine.phase == Placed(id, x)
    ensures Inv(cfg, s')
  {
    OpenedReports(cfg, s, id, x, view, silent, at);
    OpenedEngine(cfg, s.engine, s.venue.placed, id, x, view);
  }

  lemma OpenedReports(cfg: Config, s: State, id: string, x: string, view: View, silent: bool, at: int)
    requires Inv(cfg, s) && x !in s.venue.placed
    ensures ReportsInv(cfg, Opened(cfg, s.venue, id, x, view, silent, at), s.pipe)
  {
  }

  lemma OpenedEngine(cfg: Config, e: Engine, ex: Placements, id: string, x: string, view: View)
    requires Sound(cfg) && EngineInv(cfg, e, ex) && e.phase.Placing? && e.phase.id == id && x != "" && x !in ex
    ensures EngineInv(cfg, e.(phase := Placed(id, x)), ex[x := Placement(id, cfg.tag(id), view)])
  {
  }

  lemma FinishInv(cfg: Config, e: Engine, ex: Placements, at: int)
    requires EngineInv(cfg, e, ex) && e.phase.Tagged?
    ensures EngineInv(cfg, Finishing(e, e.phase.id, e.phase.exchangeId, at), ex)
  {
    var o := WithStatus(e.book[e.phase.id], Submitted, at).(exchangeId := e.phase.exchangeId);
    StoredBook(cfg, e, ex, o);
    StoredPlaced(cfg, e, ex, o);
  }

  lemma StoredBook(cfg: Config, e: Engine, ex: Placements, o: Order)
    requires EngineInv(cfg, e, ex) && e.phase.Tagged? && o.id == e.phase.id && o.exchangeId == e.phase.exchangeId
    ensures BookOk(cfg, e.book[o.id := o], ex)
  {
  }

  lemma StoredPlaced(cfg: Config, e: Engine, ex: Placements, o: Order)
    requires EngineInv(cfg, e, ex) && e.phase.Tagged? && o.id == e.phase.id && o.exchangeId == e.phase.exchangeId
    ensures PlacedOk(cfg, ex, e.book[o.id := o], Idle)
  {
  }

  lemma SubmitInv(cfg: Config, s: State, step: SubmitStep)
    requires Sound(cfg) && Inv(cfg, s)
    ensures Inv(cfg, ApplySubmit(cfg, s, step))
  {
    var e, ex, s' := s.engine, s.venue.placed, ApplySubmit(cfg, s, step);
    match step
    case Accept(o, at) =>
      if s' != s { AcceptInv(cfg, e, ex, o, at); }
    case Reject(at) =>
      if s' != s { PutInv(cfg, e, ex, WithStatus(e.book[e.phase.id], Status.Rejected, at), s'.engine); }
    case PlaceFails(at) =>
      if e.phase.Placing? && e.phase.attempt >= cfg.maxRetries {
        PutInv(cfg, e, ex, WithStatus(e.book[e.phase.id], Status.Rejected, at), s'.engine);
      }
    case PlaceSucceeds(x, view, silent, at) =>
      if s' != s { PlaceSucceedsInv(cfg, s, e.phase.id, x, view, silent, at, s'); }
    case Register =>
    case Finish(at) =>
      if s' != s { FinishInv(cfg, e, ex, at); }
  }

  lemma TakeInv(cfg: Config, s: State, id: string)
    requires Inv(cfg, s) && s.engine.phase.Idle? && s.pipe.queue != []
    ensures Inv(cfg, Taking(s, id))
  {
    var r := s.pipe.queue[0];
    if Routes(s.engine.book, r, id) {
      PutInv(cfg, s.engine, s.venue.placed, WithReport(s.engine.book[id], r), Taking(s, id).engine);
    }
  }

  lemma CancelSucceedsInv(cfg: Config, s: State, at: int)
    requires Inv(cfg, s) && s.engine.phase.Cancelling? && Open(s, s.engine.phase.id)
    ensures Inv(cfg, ApplyCommand(s, CancelSucceeds(at)))
  {
    var x := s.engine.book[s.engine.phase.id].exchangeId;
    MovedInv(cfg, s, x, View(Cancelled, s.venue.placed[x].view.filled), at);
  }

  lemma CommandInv(cfg: Config, s: State, step: CommandStep)
    requires Inv(cfg, s)
    ensures Inv(cfg, ApplyCommand(s, step))
  {
    var e, ex, s' := s.engine, s.venue.placed, ApplyCommand(s, step);
    match step
    case Take(id) => if MayTake(s, id) { TakeInv(cfg, s, id); }
    case CancelSucceeds(at) => if s' != s { CancelSucceedsInv(cfg, s, at); }
    case CancelDone(at) => if s' != s { PutInv(cfg, e, ex, WithStatus(e.book[e.phase.id], Cancelled, at), s'.engine); }
    case SyncDone => if s' != s { PutInv(cfg, e, ex, WithReport(e.book[e.phase.id], e.phase.report), s'.engine); }
    case _ =>
  }

  lemma StepInv(cfg: Config, s: State, step: Step)
    requires Sound(cfg) && Inv(cfg, s)
    ensures Inv(cfg, Apply(cfg, s, step))
  {
    match step
    case OnVenue(v) => VenueInv(cfg, s, v);
    case OnPump(p) => PumpInv(cfg, s, p);
    case OnSubmit(u) => SubmitInv(cfg, s, u);
    case OnCommand(c) => CommandInv(cfg, s, c);
  }

  lemma {:induction false} RunInv(cfg: Config, start: State, steps: seq<Step>)
    requires Sound(cfg) && Inv(cfg, start)
    ensures Inv(cfg, Run(cfg, start, steps))
  {
    if steps != [] {
      RunInv(cfg, start, steps[..|steps| - 1]);
      StepInv(cfg, Run(cfg, start, steps[..|steps| - 1]), steps[|steps| - 1]);
    }
  }

  lemma InitialInv(cfg: Config)
    ensures Inv(cfg, Initial())
  {
  }

  /**
   * In every run, an event the engine takes is of an exchange order placed for an order in its book,
   * and changes exactly that order, or is of any other exchange order, and changes no order.
   */
  lemma EveryEventFindsItsOrder(cfg: Config, start: State, steps: seq<Step>, id: string)
    requires Sound(cfg) && Inv(cfg, start) && MayTake(Run(cfg, start, steps), id)
    ensures var s := Run(cfg, start, steps); var r := s.pipe.queue[0]; var after := ApplyCommand(s, Take(id)).engine.book;
      && r.exchangeId in s.venue.placed
      && var owner := s.venue.placed[r.exchangeId].owner;
         if owner !in s.engine.book then after == s.engine.book
         else s.engine.book[owner].exchangeId == r.exchangeId
              && after == s.engine.book[owner := WithReport(s.engine.book[owner], r)]
  {
    RunInv(cfg, start, steps);
    var s := Run(cfg, start, steps);
    var r := s.pipe.queue[0];
    RoutesToOwner(cfg, s.engine, s.venue.placed, r, id);
    RoutesToOwner(cfg, s.engine, s.venue.placed, r, s.venue.placed[r.exchangeId].owner);
  }

  // ---------------------------------------------------------------- the exchange's own codec

  /** Digests of long IDs clash neither with each other nor with an ID written out. */
  ghost predicate NoDigestClash(digest: string -> string, local: string -> bool) {
    forall a, b {:trigger local(a), local(b)} :: local(a) && local(b) && a != b && |a| > TEXT_BODY_MAX ==>
      digest(a) != if |b| > TEXT_BODY_MAX then digest(b) else b
  }

  function GateConfig(digest: string -> string, local: string -> bool, maxRetries: nat): Config {
    Config((id: string) => TagFromLocal(digest, id), (tag: string) => LocalFromTag(tag), local, maxRetries)
  }

  /** The exchange's tags meet the protocol's needs for trimmed IDs without the tag prefix. */
  lemma GateCodecIsSound(digest: string -> string, local: string -> bool, maxRetries: nat)
    requires IsDigest(digest) && NoDigestClash(digest, local)
    requires forall id {:trigger local(id)} :: local(id) ==> PlainId(id)
    ensures Sound(GateConfig(digest, local, maxRetries))
  {
    forall id {:trigger local(id)} | local(id)
      ensures var tag := TagFromLocal(digest, id); tag != "" && (LocalFromTag(tag) == "" || LocalFromTag(tag) == id)
    {
      TagIsTrimmed(digest, id);
      DecodeOwnTag(digest, id);
    }
    forall a, b {:trigger local(a), local(b)} | local(a) && local(b) && TagFromLocal(digest, a) == TagFromLocal(digest, b)
      ensures a == b
    {
      TagBody(digest, a);
      TagBody(digest, b);
      assert BodyOf(a) == a && BodyOf(b) == b;
    }
  }
}
