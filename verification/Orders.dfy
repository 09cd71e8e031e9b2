/** Orders as the engine, the store and the exchange's reports know them. */
module Orders {
  import opened Wrappers

  datatype Status = Pending | Submitted | PartialFilled | Filled | Cancelled | Rejected

  predicate Terminal(st: Status) {
    st == Filled || st == Cancelled || st == Rejected
  }

  /** `Unset` stands for every market string the engine does not know. */
  datatype Market = Perp | Spot | Unset

  /** What is fixed when an order is created. */
  datatype Terms = Terms(
    symbol: string, side: string, kind: string, size: string,
    price: Option<string>, stopPrice: Option<string>, strategy: string)

  /** What the exchange decides. */
  datatype View = View(status: Status, filled: string)

  datatype Order = Order(
    id: string, exchangeId: string, market: Market, terms: Terms, view: View, createdAt: int, updatedAt: int)

  /** A stored order; the table has no market column. */
  datatype Row = Row(
    id: string, exchangeId: string, terms: Terms, view: View, createdAt: int, updatedAt: int)

  type Book = map<string, Order>
  type Table = map<string, Row>

  function RowOf(o: Order): Row {
    Row(o.id, o.exchangeId, o.terms, o.view, o.createdAt, o.updatedAt)
  }

  /** A row read back, before hydration gives it a market. */
  function OrderOf(r: Row): Order {
    Order(r.id, r.exchangeId, Unset, r.terms, r.view, r.createdAt, r.updatedAt)
  }

  /**
   * A report of an exchange order's state. `key` is the client tag on the user stream and the
   * resolved local ID ("" if unknown) afterwards.
   */
  datatype Report = Report(exchangeId: string, key: string, view: View, at: int)

  function WithReport(o: Order, r: Report): Order {
    o.(view := r.view, updatedAt := r.at)
  }

  /** The order a report is applied to: the one named, else one with its exchange ID. */
  predicate Routes(book: Book, r: Report, id: string) {
    && id in book
    && (if r.key != "" && r.key in book then id == r.key
        else r.exchangeId != "" && book[id].exchangeId == r.exchangeId)
  }

  /** The stored rows are exactly the orders in memory, market aside, and the archived rows of others. */
  ghost predicate Mirrors(table: Table, book: Book, archive: Table) {
    && table.Keys == book.Keys + archive.Keys
    && (forall id :: id in book ==> book[id].id == id && table[id] == RowOf(book[id]))
    && (forall id :: id in archive && id !in book ==> table[id] == archive[id])
  }
}
