/** Startup after a crash: list the store's open orders, reconcile them with the exchange, load them. */
module Recovery {
  import opened Orders
  import opened ExecutionEngine
  import opened OmsProtocol
  import opened OmsRouting
  import OmsConvergence
  import OmsLedger

  predicate OpenStatus(st: Status) {
    st == Pending || st == Submitted || st == PartialFilled
  }

  predicate Listed(table: Table, id: string) {
    id in table && OpenStatus(table[id].view.status)
  }

  /** The store's listing of non-terminal orders: each one once, oldest first. */
  ghost predicate IsListing(table: Table, list: seq<Order>) {
    && (forall i :: 0 <= i < |list| ==> Listed(table, list[i].id) && list[i] == OrderOf(table[list[i].id]))
    && (forall i, j :: 0 <= i < j < |list| ==> list[i].id != list[j].id && list[i].createdAt <= list[j].createdAt)
    && (forall id {:trigger Listed(table, id)} :: Listed(table, id) ==> exists i :: 0 <= i < |list| && list[i].id == id)
  }

  // ---------------------------------------------------------------- hydration

  /** An order as memory holds it: its own market, or the perp market if it names none. */
  function Kept(o: Order): Order {
    Order(o.id, o.exchangeId, if o.market == Unset then Perp else o.market, o.terms, o.view, o.createdAt, o.updatedAt)
  }

  /** Hydrating distinct orders gives each its own entry and keeps every other one. */
  lemma {:induction false} HydratedAt(book: Book, list: seq<Order>, id: string)
    requires forall i, j :: 0 <= i < j < |list| ==> list[i].id != list[j].id
    ensures id in Hydrated(book, list) <==> id in book || exists i :: 0 <= i < |list| && list[i].id == id
    ensures (forall i :: 0 <= i < |list| ==> list[i].id != id) && id in book ==> Hydrated(book, list)[id] == book[id]
    ensures forall i :: 0 <= i < |list| && list[i].id == id ==> Hydrated(book, list)[id] == Kept(list[i])
  {
    if list != [] {
      var n := |list| - 1;
      HydratedAt(book, list[..n], id);
      if exists i :: 0 <= i < n && list[i].id == id {
        var i :| 0 <= i < n && list[i].id == id;
        assert list[..n][i].id == id;
      }
    }
  }

  /** The orders a crash leaves to recover, with the market the store does not keep. */
  ghost function OpenOrders(book: Book): Book {
    map id | id in book && OpenStatus(book[id].view.status) :: book[id].(market := Perp)
  }

  /** The statuses startup lists are those a cancel does not refuse. */
  lemma OpenIffNotTerminal(st: Status)
    ensures OpenStatus(st) <==> st in {Pending, Submitted, PartialFilled}
    ensures Terminal(st) <==> st in {Filled, Cancelled, Rejected}
    ensures Terminal(st) <==> !OpenStatus(st)
  {
  }

  /** No row of an order that is not loaded is open. */
  ghost predicate Closed(archive: Table) {
    forall id :: id in archive ==> !OpenStatus(archive[id].view.status)
  }

  /** Listing a mirrored store and hydrating rebuilds the open orders, and only those. */
  lemma HydrationRebuilds(table: Table, book: Book, archive: Table, list: seq<Order>)
    requires Mirrors(table, book, archive) && Closed(archive) && IsListing(table, list)
    ensures Hydrated(map[], list) == OpenOrders(book)
  {
    var rebuilt := Hydrated(map[], list);
    forall id ensures id in rebuilt <==> id in OpenOrders(book)
              ensures id in rebuilt && id in OpenOrders(book) ==> rebuilt[id] == OpenOrders(book)[id]
    {
      HydratedAt(map[], list, id);
      assert id in table <==> id in table.Keys;
      assert Listed(table, id) <==> id in book && OpenStatus(book[id].view.status);
    }
  }

  /**
   * In every run in which no save fails, a crash after any step is recovered from: listing and
   * hydrating rebuilds exactly the non-terminal orders, market aside.
   */
  lemma CrashRecovery(cfg: Config, start: State, archive: Table, steps: seq<Step>, list: seq<Order>)
    requires Sound(cfg) && Inv(cfg, start) && OmsLedger.Stored(start.engine, archive) && Closed(archive)
    requires start.engine.up && start.engine.stale == {} && OmsLedger.StoreNeverFails(steps)
    requires IsListing(Run(cfg, start, steps).engine.table, list)
    ensures Hydrated(map[], list) == OpenOrders(Run(cfg, start, steps).engine.book)
  {
    OmsLedger.StoreMirrorsMemory(cfg, start, archive, steps);
    HydrationRebuilds(Run(cfg, start, steps).engine.table, Run(cfg, start, steps).engine.book, archive, list);
  }

  /** With only perp orders, market included: recovery rebuilds the open orders as they were in memory. */
  lemma ExactRecovery(cfg: Config, start: State, archive: Table, steps: seq<Step>, list: seq<Order>)
    requires Sound(cfg) && Inv(cfg, start) && OmsLedger.Stored(start.engine, archive) && Closed(archive)
    requires start.engine.up && start.engine.stale == {} && OmsLedger.StoreNeverFails(steps)
    requires OmsLedger.AllPerp(start.engine.book) && OmsLedger.NoSpotOrders(steps)
    requires IsListing(Run(cfg, start, steps).engine.table, list)
    ensures var book := Run(cfg, start, steps).engine.book;
      Hydrated(map[], list) == map id | id in book && OpenStatus(book[id].view.status) :: book[id]
  {
    CrashRecovery(cfg, start, archive, steps, list);
    OmsLedger.RunKeepsPerp(cfg, start, steps);
    PerpOrdersAsTheyWere(Run(cfg, start, steps).engine.book);
  }

  lemma PerpOrdersAsTheyWere(book: Book)
    requires OmsLedger.AllPerp(book)
    ensures OpenOrders(book) == map id | id in book && OpenStatus(book[id].view.status) :: book[id]
  {
  }

  // ---------------------------------------------------------------- reconciliation

  /** What asking the exchange about one order gives; `Unavailable` means its market has no executor. */
  datatype Answer = Unavailable | GoneFromExchange | CallFailed | Nothing | Shows(view: View, at: int)

  /** The order after reconciliation. */
  function Reconciled(o: Order, answer: Answer, now: int): Order {
    if Terminal(o.view.status) || o.exchangeId == "" then o
    else
      var o1 := WithDefaultMarket(o);
      match answer
      case GoneFromExchange => o1.(view := View(Cancelled, o.view.filled), updatedAt := now)
      case Shows(view, at) => o1.(view := view, updatedAt := at)
      case _ => o1
  }

  /** Reconciliation writes the order back. */
  predicate Rewritten(o: Order, answer: Answer) {
    !Terminal(o.view.status) && o.exchangeId != "" && (answer.GoneFromExchange? || answer.Shows?)
  }

  /** The market a reconciled order was asked about stays with it; an order that is not asked about is not touched. */
  lemma ReconciledMarket(o: Order, answer: Answer, now: int)
    ensures var r := Reconciled(o, answer, now);
      if OpenStatus(o.view.status) && o.exchangeId != "" then r.market == (if o.market == Unset then Perp else o.market)
      else r == o
  {
  }

  class Store {
    var rows: Table

    constructor (rows: Table)
      ensures this.rows == rows
    {
      this.rows := rows;
    }

    method SaveOrder(o: Order, works: bool)
      modifies this
      ensures rows == if works then old(rows)[o.id := RowOf(o)] else old(rows)
    {
      if works {
        rows := rows[o.id := RowOf(o)];
      }
    }
  }

  function ReconciledAll(list: seq<Order>, answer: Order -> Answer, now: int): (r: seq<Order>)
    ensures |r| == |list|
    ensures forall i :: 0 <= i < |list| ==> r[i] == Reconciled(list[i], answer(list[i]), now)
  {
    seq(|list|, i requires 0 <= i < |list| => Reconciled(list[i], answer(list[i]), now))
  }

  /** The rows after the orders of `list` have been reconciled, in order; `works` tells whose saves succeed. */
  function ReconciledRows(rows: Table, list: seq<Order>, answer: Order -> Answer, now: int, works: string -> bool): Table {
    if list == [] then rows else
      var o := list[|list| - 1];
      var before := ReconciledRows(rows, list[..|list| - 1], answer, now, works);
      if works(o.id) && Rewritten(o, answer(o)) then before[o.id := RowOf(Reconciled(o, answer(o), now))] else before
  }

  /** One order of the loop: its fields are set in place, then its row is saved. */
  method ReconcileOne(store: Store, orders: array<Order>, i: nat, answer: Answer, now: int, works: bool)
    requires i < orders.Length
    modifies store, orders
    ensures orders[i] == Reconciled(old(orders[i]), answer, now)
    ensures forall k :: 0 <= k < orders.Length && k != i ==> orders[k] == old(orders[k])
    ensures store.rows == if works && Rewritten(old(orders[i]), answer) then old(store.rows)[orders[i].id := RowOf(orders[i])]
                          else old(store.rows)
  {
    var o := orders[i];
    if Terminal(o.view.status) || o.exchangeId == "" {
      return;
    }
    orders[i] := WithDefaultMarket(o);
    match answer {
      case GoneFromExchange =>
        orders[i] := orders[i].(view := View(Cancelled, o.view.filled), updatedAt := now);
        store.SaveOrder(orders[i], works);
      case Shows(view, at) =>
        orders[i] := orders[i].(view := view, updatedAt := at);
        store.SaveOrder(orders[i], works);
      case _ =>
    }
  }

  /**
   * Brings each order to the exchange's view and writes it back; orders the exchange does not know
   * are cancelled, and those never placed, not answered or without an executor are left alone. A
   * save that fails leaves its row behind and stops nothing.
   */
  method ReconcileWithExecutors(store: Store, orders: array<Order>, answer: Order -> Answer, now: int, works: string -> bool)
    modifies store, orders
    ensures orders[..] == ReconciledAll(old(orders[..]), answer, now)
    ensures store.rows == ReconciledRows(old(store.rows), old(orders[..]), answer, now, works)
  {
    ghost var was := orders[..];
    var i := 0;
    while i < orders.Length
      invariant 0 <= i <= orders.Length
      invariant forall k :: 0 <= k < i ==> orders[k] == Reconciled(was[k], answer(was[k]), now)
      invariant forall k :: i <= k < orders.Length ==> orders[k] == was[k]
      invariant store.rows == ReconciledRows(old(store.rows), was[..i], answer, now, works)
    {
      assert was[..i + 1][..i] == was[..i];
      ReconcileOne(store, orders, i, answer(orders[i]), now, works(orders[i].id));
      i := i + 1;
    }
    assert was[..i] == was;
  }

  /** A row is its order's, reconciled, if that was written back, and what it was before otherwise. */
  lemma {:induction false} RowAfter(rows: Table, list: seq<Order>, answer: Order -> Answer, now: int, works: string -> bool, id: string)
    requires forall i, j :: 0 <= i < j < |list| ==> list[i].id != list[j].id
    ensures var after := ReconciledRows(rows, list, answer, now, works);
      && (forall i :: 0 <= i < |list| && list[i].id == id && works(id) && Rewritten(list[i], answer(list[i])) ==>
            id in after && after[id] == RowOf(Reconciled(list[i], answer(list[i]), now)))
      && ((forall i :: 0 <= i < |list| && works(id) && Rewritten(list[i], answer(list[i])) ==> list[i].id != id) ==>
            (id in after <==> id in rows) && (id in rows ==> after[id] == rows[id]))
  {
    if list != [] {
      RowAfter(rows, list[..|list| - 1], answer, now, works, id);
    }
  }

  /** The orders whose rows startup could not write back. */
  function Unsaved(list: seq<Order>, answer: Order -> Answer, works: string -> bool): set<string> {
    set o | o in list && Rewritten(o, answer(o)) && !works(o.id) :: o.id
  }

  lemma UnsavedAt(list: seq<Order>, answer: Order -> Answer, works: string -> bool, i: nat)
    requires i < |list| && forall j, k :: 0 <= j < k < |list| ==> list[j].id != list[k].id
    ensures list[i].id in Unsaved(list, answer, works) <==> Rewritten(list[i], answer(list[i])) && !works(list[i].id)
  {
    if list[i].id in Unsaved(list, answer, works) {
      var o :| o in list && Rewritten(o, answer(o)) && !works(o.id) && o.id == list[i].id;
      var k :| 0 <= k < |list| && list[k] == o;
    }
  }

  lemma LoadedAt(rows: Table, list: seq<Order>, answer: Order -> Answer, now: int, i: nat)
    requires IsListing(rows, list) && i < |list|
    ensures var book := Hydrated(map[], ReconciledAll(list, answer, now));
      list[i].id in book && book[list[i].id] == WithDefaultMarket(Reconciled(list[i], answer(list[i]), now))
  {
    var reconciled := ReconciledAll(list, answer, now);
    assert reconciled[i].id == list[i].id;
    HydratedAt(map[], reconciled, list[i].id);
  }

  lemma RowOfListed(rows: Table, list: seq<Order>, answer: Order -> Answer, now: int, works: string -> bool, i: nat)
    requires IsListing(rows, list) && i < |list|
    ensures var id := list[i].id; var after := ReconciledRows(rows, list, answer, now, works);
      && id in after && id in rows
      && after[id] == if works(id) && Rewritten(list[i], answer(list[i])) then RowOf(Reconciled(list[i], answer(list[i]), now)) else rows[id]
  {
    RowAfter(rows, list, answer, now, works, list[i].id);
    assert Listed(rows, list[i].id);
  }

  /**
   * After startup every listed order is in memory as the reconciliation leaves it, and its row is
   * the one memory would write unless its save failed, which leaves the row as it was.
   */
  lemma StartupMirrorsStore(rows: Table, list: seq<Order>, answer: Order -> Answer, now: int, works: string -> bool, i: nat)
    requires IsListing(rows, list) && i < |list|
    ensures var id := list[i].id; var book := Hydrated(map[], ReconciledAll(list, answer, now));
      var after := ReconciledRows(rows, list, answer, now, works);
      && id in book && book[id] == WithDefaultMarket(Reconciled(list[i], answer(list[i]), now))
      && id in after
      && after[id] == if id in Unsaved(list, answer, works) then rows[id] else RowOf(book[id])
  {
    LoadedAt(rows, list, answer, now, i);
    RowOfListed(rows, list, answer, now, works, i);
    UnsavedAt(list, answer, works, i);
  }

  /** What the exchange's answer says of an order. */
  function Shown(o: Order, answer: Answer): View {
    if answer.Shows? then answer.view else View(Cancelled, o.view.filled)
  }

  lemma ReconciledShows(o: Order, answer: Answer, now: int)
    requires !Terminal(o.view.status) && o.exchangeId != "" && (answer.Shows? || answer.GoneFromExchange?)
    ensures WithDefaultMarket(Reconciled(o, answer, now)).view == Shown(o, answer) && Rewritten(o, answer)
  {
  }

  lemma ListedRow(rows: Table, list: seq<Order>, i: nat)
    requires IsListing(rows, list) && i < |list|
    ensures list[i].id in rows && rows[list[i].id].id == list[i].id && !Terminal(list[i].view.status)
    ensures var row := rows[list[i].id]; list[i] == Order(row.id, row.exchangeId, Unset, row.terms, row.view, row.createdAt, row.updatedAt)
  {
    assert Listed(rows, list[i].id);
  }

  /**
   * After startup every listed order placed at the exchange that the exchange answered for is in
   * memory with the exchange's status and filled size, and in the store too unless its save failed;
   * one the exchange does not know is cancelled with what it had filled.
   */
  lemma StartupShowsExchange(rows: Table, list: seq<Order>, answer: Order -> Answer, now: int, works: string -> bool, i: nat)
    requires IsListing(rows, list) && i < |list| && list[i].exchangeId != ""
    requires answer(list[i]).Shows? || answer(list[i]).GoneFromExchange?
    ensures var id, shown := list[i].id, Shown(list[i], answer(list[i]));
      var book := Hydrated(map[], ReconciledAll(list, answer, now)); var after := ReconciledRows(rows, list, answer, now, works);
      && id in book && book[id].view == shown
      && id in after && after[id].view == (if works(id) then shown else list[i].view)
  {
    ListedRow(rows, list, i);
    ReconciledShows(list[i], answer(list[i]), now);
    LoadedAt(rows, list, answer, now, i);
    RowOfListed(rows, list, answer, now, works, i);
  }

  /** A row's order as startup loads it, with another view. */
  function Loaded(row: Row, view: View, updatedAt: int): Order {
    Order(row.id, row.exchangeId, Perp, row.terms, view, row.createdAt, updatedAt)
  }

  /**
   * A listed order that was never placed, whose market has no executor, or whose exchange gave no
   * answer is loaded as its row spells it, and the row stands.
   */
  lemma StartupLeavesUnanswered(rows: Table, list: seq<Order>, answer: Order -> Answer, now: int, works: string -> bool, i: nat)
    requires IsListing(rows, list) && i < |list|
    requires list[i].exchangeId == "" || answer(list[i]) in {Unavailable, CallFailed, Nothing}
    ensures var id := list[i].id; var book, after := Hydrated(map[], ReconciledAll(list, answer, now)), ReconciledRows(rows, list, answer, now, works);
      && id in rows && id in book && id in after
      && book[id] == Loaded(rows[id], rows[id].view, rows[id].updatedAt) && after[id] == rows[id]
  {
    ListedRow(rows, list, i);
    LoadedAt(rows, list, answer, now, i);
    RowOfListed(rows, list, answer, now, works, i);
  }

  /** One the exchange answered for is its row with the answer's view and time, and nothing else changed. */
  lemma StartupAppliesAnswer(rows: Table, list: seq<Order>, answer: Order -> Answer, now: int, works: string -> bool, i: nat)
    requires IsListing(rows, list) && i < |list| && list[i].exchangeId != ""
    requires answer(list[i]).Shows? || answer(list[i]).GoneFromExchange?
    ensures var id, a := list[i].id, answer(list[i]); var book, after := Hydrated(map[], ReconciledAll(list, answer, now)), ReconciledRows(rows, list, answer, now, works);
      && id in rows && id in book && id in after
      && book[id] == (if a.Shows? then Loaded(rows[id], a.view, a.at) else Loaded(rows[id], View(Cancelled, rows[id].view.filled), now))
      && after[id] == (if works(id) then rows[id].(view := book[id].view, updatedAt := book[id].updatedAt) else rows[id])
  {
    ListedRow(rows, list, i);
    LoadedAt(rows, list, answer, now, i);
    RowOfListed(rows, list, answer, now, works, i);
  }

  /** A listed order and its row after startup: as the row was, or with the exchange's answer. */
  predicate StartsAs(rows: Table, book: Book, after: Table, o: Order, a: Answer, now: int, saved: bool) {
    && o.id in rows && o.id in book && o.id in after
    && var row := rows[o.id];
       if o.exchangeId == "" || a in {Unavailable, CallFailed, Nothing} then
         book[o.id] == Loaded(row, row.view, row.updatedAt) && after[o.id] == row
       else
         && book[o.id] == (if a.Shows? then Loaded(row, a.view, a.at) else Loaded(row, View(Cancelled, row.view.filled), now))
         && after[o.id] == (if saved then row.(view := book[o.id].view, updatedAt := book[o.id].updatedAt) else row)
  }

  lemma StartupStarts(rows: Table, list: seq<Order>, answer: Order -> Answer, now: int, works: string -> bool, i: nat)
    requires IsListing(rows, list) && i < |list|
    ensures StartsAs(rows, Hydrated(map[], ReconciledAll(list, answer, now)), ReconciledRows(rows, list, answer, now, works),
                     list[i], answer(list[i]), now, works(list[i].id))
  {
    if list[i].exchangeId == "" || answer(list[i]) in {Unavailable, CallFailed, Nothing} {
      StartupLeavesUnanswered(rows, list, answer, now, works, i);
    } else {
      StartupAppliesAnswer(rows, list, answer, now, works, i);
    }
  }

  /** Startup: the listed orders are reconciled, written back, and loaded into the empty engine. */
  method LoadSnapshotAndReconcile(store: Store, engine: OrderEngine, orders: array<Order>, answer: Order -> Answer,
                                  now: int, works: string -> bool)
    requires IsListing(store.rows, orders[..]) && engine.orders == map[]
    modifies store, orders, engine
    ensures engine.orders == Hydrated(map[], ReconciledAll(old(orders[..]), answer, now))
    ensures store.rows == ReconciledRows(old(store.rows), old(orders[..]), answer, now, works)
    ensures forall o :: o in old(orders[..]) ==> StartsAs(old(store.rows), engine.orders, store.rows, o, answer(o), now, works(o.id))
  {
    ghost var list, rows := orders[..], store.rows;
    ReconcileWithExecutors(store, orders, answer, now, works);
    engine.HydrateFromSnapshot(orders[..]);
    forall o | o in list ensures StartsAs(rows, engine.orders, store.rows, o, answer(o), now, works(o.id)) {
      var i :| 0 <= i < |list| && list[i] == o;
      StartupStarts(rows, list, answer, now, works, i);
    }
  }

  lemma {:induction false} RowKept(rows: Table, list: seq<Order>, answer: Order -> Answer, now: int, works: string -> bool, id: string)
    requires forall i :: 0 <= i < |list| ==> list[i].id != id
    ensures var after := ReconciledRows(rows, list, answer, now, works);
      (id in after <==> id in rows) && (id in rows ==> after[id] == rows[id])
  {
    if list != [] {
      RowKept(rows, list[..|list| - 1], answer, now, works, id);
    }
  }

  lemma {:induction false} NotHydrated(list: seq<Order>, id: string)
    requires forall i :: 0 <= i < |list| ==> list[i].id != id
    ensures id !in Hydrated(map[], list)
  {
    if list != [] {
      NotHydrated(list[..|list| - 1], id);
    }
  }

  /** Rows of terminal orders are neither loaded nor changed. */
  lemma StartupTouchesOnlyListed(rows: Table, list: seq<Order>, answer: Order -> Answer, now: int, works: string -> bool, id: string)
    requires IsListing(rows, list) && !Listed(rows, id)
    ensures var after := ReconciledRows(rows, list, answer, now, works);
      && id !in Hydrated(map[], ReconciledAll(list, answer, now))
      && (id in after <==> id in rows) && (id in rows ==> after[id] == rows[id])
  {
    forall i | 0 <= i < |list| ensures list[i].id != id {
      assert Listed(rows, list[i].id);
    }
    RowKept(rows, list, answer, now, works, id);
    NotHydrated(ReconciledAll(list, answer, now), id);
  }

  // ---------------------------------------------------------------- the next run

  /** The protocol's state after startup: a new process at an exchange that shows `placed`. */
  function Restarted(placed: Placements, rows: Table, list: seq<Order>, answer: Order -> Answer, now: int, works: string -> bool): State {
    State(Venue(placed, []), Pipe(Waiting, [], map[]),
          Engine(Hydrated(map[], ReconciledAll(list, answer, now)), ReconciledRows(rows, list, answer, now, works),
                 true, Unsaved(list, answer, works), Idle, NO_STATS))
  }

  /** The same exchange orders, in whatever state they are by now. */
  ghost predicate SamePlacements(before: Placements, after: Placements) {
    && after.Keys == before.Keys
    && forall x :: x in before ==> after[x].owner == before[x].owner && after[x].tag == before[x].tag
  }

  /** The rows startup does not load. */
  function Archive(rows: Table): Table {
    map id | id in rows && !Listed(rows, id) :: rows[id]
  }

  lemma LoadedIsListed(rows: Table, list: seq<Order>, answer: Order -> Answer, now: int, id: string) returns (i: nat)
    requires IsListing(rows, list) && id in Hydrated(map[], ReconciledAll(list, answer, now))
    ensures i < |list| && list[i].id == id
  {
    var after := ReconciledAll(list, answer, now);
    i := HydratedFrom(after, id);
    assert after[i] == Reconciled(list[i], answer(list[i]), now);
  }

  lemma {:induction false} HydratedFrom(list: seq<Order>, id: string) returns (i: nat)
    requires id in Hydrated(map[], list)
    ensures i < |list| && list[i].id == id
  {
    var n := |list| - 1;
    if list[n].id == id {
      i := n;
    } else {
      i := HydratedFrom(list[..n], id);
    }
  }

  /** A reloaded order has the ID and the exchange ID it had in memory before the crash. */
  lemma ReloadedIdentity(table: Table, book: Book, archive: Table, list: seq<Order>, answer: Order -> Answer, now: int, id: string)
    requires Mirrors(table, book, archive) && Closed(archive) && IsListing(table, list)
    requires id in Hydrated(map[], ReconciledAll(list, answer, now))
    ensures var loaded := Hydrated(map[], ReconciledAll(list, answer, now));
      id in book && loaded[id].id == id && loaded[id].exchangeId == book[id].exchangeId
  {
    var i := LoadedIsListed(table, list, answer, now, id);
    LoadedAt(table, list, answer, now, i);
    ReconciledKeepsIdentity(list[i], answer(list[i]), now);
    ListedInBook(table, book, archive, list[i]);
  }

  lemma ReconciledKeepsIdentity(o: Order, answer: Answer, now: int)
    ensures var r := WithDefaultMarket(Reconciled(o, answer, now)); r.id == o.id && r.exchangeId == o.exchangeId
  {
  }

  lemma ListedInBook(table: Table, book: Book, archive: Table, o: Order)
    requires Mirrors(table, book, archive) && Closed(archive) && Listed(table, o.id) && o == OrderOf(table[o.id])
    ensures o.id in book && o.exchangeId == book[o.id].exchangeId
  {
    assert o.id in table.Keys;
  }

  lemma RestartBook(cfg: Config, s: State, archive: Table, list: seq<Order>, answer: Order -> Answer, now: int, works: string -> bool,
                    placed: Placements)
    requires Inv(cfg, s) && Mirrors(s.engine.table, s.engine.book, archive) && Closed(archive)
    requires IsListing(s.engine.table, list) && SamePlacements(s.venue.placed, placed)
    ensures BookOk(cfg, Restarted(placed, s.engine.table, list, answer, now, works).engine.book, placed)
  {
    var loaded := Hydrated(map[], ReconciledAll(list, answer, now));
    forall id | id in loaded
      ensures loaded[id].id == id && cfg.local(id)
        && (loaded[id].exchangeId != "" ==> loaded[id].exchangeId in placed && placed[loaded[id].exchangeId].owner == id)
    {
      ReloadedIdentity(s.engine.table, s.engine.book, archive, list, answer, now, id);
      assert loaded[id].exchangeId in placed <==> loaded[id].exchangeId in placed.Keys;
    }
  }

  lemma RestartPlaced(cfg: Config, s: State, archive: Table, list: seq<Order>, answer: Order -> Answer, now: int, works: string -> bool,
                      placed: Placements)
    requires Inv(cfg, s) && s.engine.phase.Idle? && Mirrors(s.engine.table, s.engine.book, archive) && Closed(archive)
    requires IsListing(s.engine.table, list) && SamePlacements(s.venue.placed, placed)
    ensures PlacedOk(cfg, placed, Restarted(placed, s.engine.table, list, answer, now, works).engine.book, Idle)
  {
    var loaded := Hydrated(map[], ReconciledAll(list, answer, now));
    forall x | x in placed
      ensures x != "" && (if placed[x].owner == "" then ForeignTag(cfg, placed[x].tag) else OwnedOk(cfg, x, placed[x], loaded, Idle))
    {
      assert x in s.venue.placed.Keys;
      if placed[x].owner in loaded {
        ReloadedIdentity(s.engine.table, s.engine.book, archive, list, answer, now, placed[x].owner);
      }
    }
  }

  lemma RestartStored(rows: Table, list: seq<Order>, answer: Order -> Answer, now: int, works: string -> bool, placed: Placements)
    requires IsListing(rows, list)
    ensures OmsLedger.Stored(Restarted(placed, rows, list, answer, now, works).engine, Archive(rows)) && Closed(Archive(rows))
  {
    var e, archive := Restarted(placed, rows, list, answer, now, works).engine, Archive(rows);
    forall id
      ensures id in e.book <==> Listed(rows, id)
      ensures id in e.book && id !in e.stale ==> id in e.table && e.table[id] == RowOf(e.book[id])
      ensures id in e.table ==> id in e.book || id in archive
      ensures id in archive ==> id in e.table && e.table[id] == archive[id]
      ensures id in e.stale ==> id in e.book
    {
      if Listed(rows, id) {
        var i :| 0 <= i < |list| && list[i].id == id;
        StartupMirrorsStore(rows, list, answer, now, works, i);
      } else {
        StartupTouchesOnlyListed(rows, list, answer, now, works, id);
        UnsavedIsListed(rows, list, answer, works, id);
      }
    }
  }

  lemma UnsavedIsListed(rows: Table, list: seq<Order>, answer: Order -> Answer, works: string -> bool, id: string)
    requires IsListing(rows, list)
    ensures id in Unsaved(list, answer, works) ==> Listed(rows, id)
  {
  }

  /** The exchange orders whose owners startup left with another view, because the exchange did not answer for them. */
  ghost function Unsettled(s: State): set<string> {
    set x | x in s.venue.placed && s.venue.placed[x].owner in s.engine.book
            && s.engine.book[s.venue.placed[x].owner].view != s.venue.placed[x].view
  }

  lemma StillIsExact(s: State)
    requires OmsConvergence.Quiet(s)
    ensures OmsConvergence.Exact(s, Unsettled(s))
  {
  }

  /**
   * A crash while the engine is idle, after a run in which no save failed, leads through startup to a
   * state from which everything proved of runs holds again: identities, the record of missed reports
   * (at first the orders the exchange did not answer for), the store and the counters.
   */
  lemma RestartBeginsARun(cfg: Config, start: State, archive: Table, steps: seq<Step>, list: seq<Order>,
                          answer: Order -> Answer, now: int, works: string -> bool, placed: Placements)
    requires Sound(cfg) && Inv(cfg, start) && OmsLedger.Stored(start.engine, archive) && Closed(archive)
    requires start.engine.up && start.engine.stale == {} && OmsLedger.StoreNeverFails(steps)
    requires Run(cfg, start, steps).engine.phase.Idle? && IsListing(Run(cfg, start, steps).engine.table, list)
    requires SamePlacements(Run(cfg, start, steps).venue.placed, placed)
    ensures var s := Run(cfg, start, steps); var t := Restarted(placed, s.engine.table, list, answer, now, works);
      && Inv(cfg, t) && OmsLedger.Opening(t) && OmsConvergence.Exact(t, Unsettled(t))
      && OmsLedger.Stored(t.engine, Archive(s.engine.table)) && Closed(Archive(s.engine.table))
  {
    var s := Run(cfg, start, steps);
    RunInv(cfg, start, steps);
    OmsLedger.StoreMirrorsMemory(cfg, start, archive, steps);
    RestartBook(cfg, s, archive, list, answer, now, works, placed);
    RestartPlaced(cfg, s, archive, list, answer, now, works, placed);
    RestartStored(s.engine.table, list, answer, now, works, placed);
    StillIsExact(Restarted(placed, s.engine.table, list, answer, now, works));
  }

  /** An order the exchange answered for truly is not among the unsettled ones. */
  lemma AnsweredIsSettled(rows: Table, list: seq<Order>, answer: Order -> Answer, now: int, works: string -> bool, placed: Placements, i: nat)
    requires IsListing(rows, list) && i < |list| && list[i].exchangeId in placed && list[i].exchangeId != ""
    requires placed[list[i].exchangeId].owner == list[i].id
    requires answer(list[i]).Shows? && answer(list[i]).view == placed[list[i].exchangeId].view
    ensures list[i].exchangeId !in Unsettled(Restarted(placed, rows, list, answer, now, works))
  {
    StartupShowsExchange(rows, list, answer, now, works, i);
  }

  /**
   * A crash between the exchange's acceptance and the storing of the exchange ID: the order is
   * reloaded without that ID and not asked for, and the exchange's reports find it again if and only
   * if its tag spells its ID.
   */
  lemma CrashDuringPlacement(cfg: Config, s: State, archive: Table, list: seq<Order>, answer: Order -> Answer, now: int,
                             works: string -> bool, placed: Placements, id: string, x: string, view: View, at: int)
    requires Sound(cfg) && Inv(cfg, s) && InPlacement(s.engine.phase, id, x)
    requires Mirrors(s.engine.table, s.engine.book, archive) && Closed(archive) && IsListing(s.engine.table, list)
    requires SamePlacements(s.venue.placed, placed) && OpenStatus(s.engine.book[id].view.status)
    ensures var t := Restarted(placed, s.engine.table, list, answer, now, works);
      var r := Report(x, LookUp(cfg, t.pipe.tags, placed[x].tag), view, at);
      && id in t.engine.book && t.engine.book[id].exchangeId == "" && t.engine.book[id].view == s.engine.book[id].view
      && (Routes(t.engine.book, r, id) <==> cfg.decode(cfg.tag(id)) == id)
      && forall other :: other != id ==> !Routes(t.engine.book, r, other)
  {
    ReloadedUnplaced(s.engine.table, s.engine.book, archive, list, answer, now, id);
    NoneKnows(cfg, s, archive, list, answer, now, id, x);
    ReportOfUnasked(cfg, Hydrated(map[], ReconciledAll(list, answer, now)), id, x, view, at);
  }

  /** An open order without an exchange ID is reloaded as it was. */
  lemma ReloadedUnplaced(table: Table, book: Book, archive: Table, list: seq<Order>, answer: Order -> Answer, now: int, id: string)
    requires Mirrors(table, book, archive) && Closed(archive) && IsListing(table, list)
    requires id in book && book[id].id == id && book[id].exchangeId == "" && OpenStatus(book[id].view.status)
    ensures var loaded := Hydrated(map[], ReconciledAll(list, answer, now));
      id in loaded && loaded[id].exchangeId == "" && loaded[id].view == book[id].view
  {
    assert id in table.Keys && Listed(table, id);
    var i :| 0 <= i < |list| && list[i].id == id;
    assert list[i] == OrderOf(table[id]);
    LoadedAt(table, list, answer, now, i);
  }

  /** No reloaded order has the exchange ID that was not stored. */
  lemma NoneKnows(cfg: Config, s: State, archive: Table, list: seq<Order>, answer: Order -> Answer, now: int, id: string, x: string)
    requires Inv(cfg, s) && InPlacement(s.engine.phase, id, x)
    requires Mirrors(s.engine.table, s.engine.book, archive) && Closed(archive) && IsListing(s.engine.table, list)
    ensures var loaded := Hydrated(map[], ReconciledAll(list, answer, now));
      forall other :: other in loaded ==> loaded[other].exchangeId != x
  {
    var loaded := Hydrated(map[], ReconciledAll(list, answer, now));
    forall other | other in loaded ensures loaded[other].exchangeId != x {
      ReloadedIdentity(s.engine.table, s.engine.book, archive, list, answer, now, other);
    }
  }

  /** With no tag registered, and no order that knows `x`, only the tag's own spelling can name an order. */
  lemma ReportOfUnasked(cfg: Config, book: Book, id: string, x: string, view: View, at: int)
    requires Sound(cfg) && cfg.local(id) && id in book && forall other :: other in book ==> book[other].exchangeId != x
    ensures var r := Report(x, LookUp(cfg, map[], cfg.tag(id)), view, at);
      && (Routes(book, r, id) <==> cfg.decode(cfg.tag(id)) == id)
      && forall other :: other != id ==> !Routes(book, r, other)
  {
  }
}
