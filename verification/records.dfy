/**
  The persisted records of the ledger and the store that holds them.

  Stock items and agents are documents keyed by id; purchases and sales are
  event logs kept in the order they were written. Only documents of the
  collections themselves are modelled: the ledger never writes below them.
  `Wf` is the invariant every ledger write preserves: every key is a plain
  document id, every purchase and sale references its documents by an id the
  store accepted, and every record holds the derived amounts and the
  validated bounds it was written with.
 */
module Records {
  import opened Core
  import opened Schemas
  import opened Paths

  datatype Stock = Stock(name: string, kind: StockType, createdAt: int)

  /** The phone is optional in the record type but every write stores a string, possibly empty. */
  datatype Agent = Agent(name: string, phone: string, createdAt: int)

  /** A purchase event; `agentName` and `stockName` are snapshots copied at write time. */
  datatype Purchase = Purchase(
    id: Id, date: int,
    agentId: Id, agentName: string,
    stockId: Id, stockName: string,
    kg: real, bags: nat, rate: real, totalAmount: real,
    createdAt: int)

  /** A sale event; `stockName` and `purchaseRate` are snapshots copied at write time. */
  datatype Sale = Sale(
    id: Id, date: int,
    customerType: CustomerType, customerName: string,
    stockId: Id, stockName: string,
    kg: real, bags: nat, purchaseRate: real, saleRate: real, totalAmount: real,
    createdAt: int)

  datatype Store = Store(
    stocks: map<Id, Stock>,
    agents: map<Id, Agent>,
    purchases: seq<Purchase>,
    sales: seq<Sale>)

  const EmptyStore := Store(map[], map[], [], [])

  predicate WellFormedPurchase(p: Purchase) {
    && DocRefOf(p.agentId).InCollection? && DocRefOf(p.stockId).InCollection?
    && PositiveNumber(p.kg) && PositiveNumber(p.rate)
    && p.totalAmount == p.kg * p.rate
  }

  predicate WellFormedSale(x: Sale) {
    && DocRefOf(x.stockId).InCollection?
    && PositiveNumber(x.kg) && PositiveNumber(x.saleRate)
    && x.totalAmount == x.kg * x.saleRate
    && (x.customerType == Customer ==> x.customerName != "")
  }

  predicate Wf(s: Store) {
    && (forall k | k in s.stocks :: DocRefOf(k) == InCollection(k))
    && (forall k | k in s.agents :: DocRefOf(k) == InCollection(k))
    && (forall p | p in s.purchases :: WellFormedPurchase(p))
    && (forall x | x in s.sales :: WellFormedSale(x))
  }
}
