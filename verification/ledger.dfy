/**
  The ledger's write and read operations, modelled once and shared by the
  server actions and the route handlers (`Routes` wraps them in HTTP replies).

  Every write follows one pipeline: validate the input, look up the records it
  references, reject it if one is missing, copy names at write time, compute
  the total, and store. A failed write returns a `Failure` and leaves the
  store as it was; the caller keeps its old store.

  The record store contributes three behaviours of its own. A document id
  that does not name a document of the collection (`Paths.DocRefOf`) is
  refused before any lookup (`InvalidDocumentPath`). An update of a missing
  document fails (`DocumentNotFound`). A delete of a missing document
  succeeds without effect. An id naming a document of a sub-collection is
  accepted, but no such document is ever stored. New document ids and
  creation times come from the store and are parameters here.
 */
module Ledger {
  import opened Core
  import opened Schemas
  import opened Records
  import opened Ordering
  import opened Resolver
  import opened Paths

  datatype Error =
    | InvalidFields
    | AgentOrStockNotFound
    | StockNotFound
    | InvalidDocumentPath
    | DocumentNotFound

  /** The messages the server actions throw. */
  function Message(e: Error): string {
    match e
    case InvalidFields => "Invalid fields"
    case AgentOrStockNotFound => "Agent or Stock not found"
    case StockNotFound => "Stock not found"
    case InvalidDocumentPath => "Invalid document reference"
    case DocumentNotFound => "No document to update"
  }

  /** A fresh id the store may hand out for a new document: a plain id not yet in use. */
  predicate FreshKey<V>(m: map<Id, V>, id: Id) {
    DocRefOf(id) == InCollection(id) && id !in m
  }

  /** `id` names a document that the collection `m` holds. */
  predicate Resolves<V>(m: map<Id, V>, id: Id) {
    DocRefOf(id).InCollection? && DocRefOf(id).key in m
  }

  /** The document `id` names in `m`. */
  function Resolved<V>(m: map<Id, V>, id: Id): V
    requires Resolves(m, id)
  {
    m[DocRefOf(id).key]
  }

  // ---------------------------------------------------------------- stock

  function AddStock(s: Store, input: StockInput, newId: Id, now: int): (r: Result<Store, Error>)
    requires FreshKey(s.stocks, newId)
    ensures r.Failure? <==> !ValidStock(input)
    ensures r.Failure? ==> r.error == InvalidFields
    ensures r.Success? ==>
      && r.value.stocks.Keys == s.stocks.Keys + {newId}
      && StockToInput(StockFields(r.value.stocks[newId].name, r.value.stocks[newId].kind)) == input
      && r.value.stocks[newId].createdAt == now
      && (forall k | k in s.stocks :: r.value.stocks[k] == s.stocks[k])
      && r.value.agents == s.agents && r.value.purchases == s.purchases && r.value.sales == s.sales
  {
    match ParseStock(input)
    case None => Failure(InvalidFields)
    case Some(f) => Success(s.(stocks := s.stocks[newId := Stock(f.name, f.kind, now)]))
  }

  function UpdateStock(s: Store, id: Id, input: StockInput): (r: Result<Store, Error>)
    ensures !ValidStock(input) ==> r == Failure(InvalidFields)
    ensures ValidStock(input) && DocRefOf(id).Refused? ==> r == Failure(InvalidDocumentPath)
    ensures ValidStock(input) && !DocRefOf(id).Refused? && !Resolves(s.stocks, id) ==> r == Failure(DocumentNotFound)
    ensures r.Success? <==> ValidStock(input) && Resolves(s.stocks, id)
    ensures r.Success? ==>
      var k := DocRefOf(id).key;
      && r.value.stocks.Keys == s.stocks.Keys
      && StockToInput(StockFields(r.value.stocks[k].name, r.value.stocks[k].kind)) == input
      && r.value.stocks[k].createdAt == s.stocks[k].createdAt
      && (forall j | j in s.stocks && j != k :: r.value.stocks[j] == s.stocks[j])
      && r.value.agents == s.agents && r.value.purchases == s.purchases && r.value.sales == s.sales
  {
    match ParseStock(input)
    case None => Failure(InvalidFields)
    case Some(f) =>
      match DocRefOf(id)
      case Refused => Failure(InvalidDocumentPath)
      case Nested => Failure(DocumentNotFound)
      case InCollection(k) =>
        if k !in s.stocks then Failure(DocumentNotFound)
        else Success(s.(stocks := s.stocks[k := s.stocks[k].(name := f.name, kind := f.kind)]))
  }

  /** Deleting a stock item does not cascade: purchases and sales keep their snapshots. */
  function DeleteStock(s: Store, id: Id): (r: Result<Store, Error>)
    ensures r.Failure? <==> DocRefOf(id).Refused?
    ensures r.Failure? ==> r.error == InvalidDocumentPath
    ensures r.Success? ==>
      && (forall k :: k in r.value.stocks <==> k in s.stocks && DocRefOf(id) != InCollection(k))
      && (forall k | k in r.value.stocks :: r.value.stocks[k] == s.stocks[k])
      && r.value.agents == s.agents && r.value.purchases == s.purchases && r.value.sales == s.sales
  {
    match DocRefOf(id)
    case Refused => Failure(InvalidDocumentPath)
    case Nested => Success(s)
    case InCollection(k) => Success(s.(stocks := s.stocks - {k}))
  }

  // ---------------------------------------------------------------- agent

  function AddAgent(s: Store, input: AgentInput, newId: Id, now: int): (r: Result<Store, Error>)
    requires FreshKey(s.agents, newId)
    ensures r.Failure? <==> !ValidAgent(input)
    ensures r.Failure? ==> r.error == InvalidFields
    ensures r.Success? ==>
      && r.value.agents.Keys == s.agents.Keys + {newId}
      && Some(r.value.agents[newId].name) == input.name
      && (input.phone.Some? ==> r.value.agents[newId].phone == input.phone.value)
      && (input.phone.None? ==> r.value.agents[newId].phone == "")
      && r.value.agents[newId].createdAt == now
      && (forall k | k in s.agents :: r.value.agents[k] == s.agents[k])
      && r.value.stocks == s.stocks && r.value.purchases == s.purchases && r.value.sales == s.sales
  {
    match ParseAgent(input)
    case None => Failure(InvalidFields)
    case Some(f) => Success(s.(agents := s.agents[newId := Agent(f.name, OrEmpty(f.phone), now)]))
  }

  function UpdateAgent(s: Store, id: Id, input: AgentInput): (r: Result<Store, Error>)
    ensures !ValidAgent(input) ==> r == Failure(InvalidFields)
    ensures ValidAgent(input) && DocRefOf(id).Refused? ==> r == Failure(InvalidDocumentPath)
    ensures ValidAgent(input) && !DocRefOf(id).Refused? && !Resolves(s.agents, id) ==> r == Failure(DocumentNotFound)
    ensures r.Success? <==> ValidAgent(input) && Resolves(s.agents, id)
    ensures r.Success? ==>
      var k := DocRefOf(id).key;
      && r.value.agents.Keys == s.agents.Keys
      && Some(r.value.agents[k].name) == input.name
      && (input.phone.Some? ==> r.value.agents[k].phone == input.phone.value)
      && (input.phone.None? ==> r.value.agents[k].phone == "")
      && r.value.agents[k].createdAt == s.agents[k].createdAt
      && (forall j | j in s.agents && j != k :: r.value.agents[j] == s.agents[j])
      && r.value.stocks == s.stocks && r.value.purchases == s.purchases && r.value.sales == s.sales
  {
    match ParseAgent(input)
    case None => Failure(InvalidFields)
    case Some(f) =>
      match DocRefOf(id)
      case Refused => Failure(InvalidDocumentPath)
      case Nested => Failure(DocumentNotFound)
      case InCollection(k) =>
        if k !in s.agents then Failure(DocumentNotFound)
        else Success(s.(agents := s.agents[k := s.agents[k].(name := f.name, phone := OrEmpty(f.phone))]))
  }

  /** Deleting an agent does not cascade: purchases keep their agent-name snapshots. */
  function DeleteAgent(s: Store, id: Id): (r: Result<Store, Error>)
    ensures r.Failure? <==> DocRefOf(id).Refused?
    ensures r.Failure? ==> r.error == InvalidDocumentPath
    ensures r.Success? ==>
      && (forall k :: k in r.value.agents <==> k in s.agents && DocRefOf(id) != InCollection(k))
      && (forall k | k in r.value.agents :: r.value.agents[k] == s.agents[k])
      && r.value.stocks == s.stocks && r.value.purchases == s.purchases && r.value.sales == s.sales
  {
    match DocRefOf(id)
    case Refused => Failure(InvalidDocumentPath)
    case Nested => Success(s)
    case InCollection(k) => Success(s.(agents := s.agents - {k}))
  }

  // ---------------------------------------------------------------- purchase

  /** The purchase record a validated entry produces, with its name snapshots and derived total. */
  function NewPurchase(f: PurchaseFields, agentName: string, stockName: string, newId: Id, now: int): Purchase {
    Purchase(newId, f.date, f.agentId, agentName, f.stockId, stockName,
             f.kg, f.bags, f.rate, f.kg * f.rate, now)
  }

  function AddPurchase(s: Store, input: PurchaseInput, newId: Id, now: int): (r: Result<Store, Error>)
    ensures !ValidPurchase(input) ==> r == Failure(InvalidFields)
    ensures ValidPurchase(input) && (DocRefOf(input.agentId.value).Refused? || DocRefOf(input.stockId.value).Refused?) ==>
      r == Failure(InvalidDocumentPath)
    ensures
      (&& ValidPurchase(input) && !DocRefOf(input.agentId.value).Refused? && !DocRefOf(input.stockId.value).Refused?
       && !(Resolves(s.agents, input.agentId.value) && Resolves(s.stocks, input.stockId.value)))
      ==> r == Failure(AgentOrStockNotFound)
    ensures r.Success? <==>
      ValidPurchase(input) && Resolves(s.agents, input.agentId.value) && Resolves(s.stocks, input.stockId.value)
    ensures r.Success? ==>
      && |r.value.purchases| == |s.purchases| + 1
      && r.value.purchases == s.purchases + [r.value.purchases[|s.purchases|]]
      && var p := r.value.purchases[|s.purchases|];
      && PurchaseToInput(PurchaseFields(p.date, p.agentId, p.stockId, p.kg, p.bags, p.rate)) == input
      && p.totalAmount == input.kg * input.rate
      && p.agentName == Resolved(s.agents, p.agentId).name
      && p.stockName == Resolved(s.stocks, p.stockId).name
      && p.id == newId && p.createdAt == now
      && r.value.stocks == s.stocks && r.value.agents == s.agents && r.value.sales == s.sales
  {
    match ParsePurchase(input)
    case None => Failure(InvalidFields)
    case Some(f) =>
      if DocRefOf(f.agentId).Refused? || DocRefOf(f.stockId).Refused? then Failure(InvalidDocumentPath)
      else if !Resolves(s.agents, f.agentId) || !Resolves(s.stocks, f.stockId) then Failure(AgentOrStockNotFound)
      else
        var p := NewPurchase(f, Resolved(s.agents, f.agentId).name, Resolved(s.stocks, f.stockId).name, newId, now);
        Success(s.(purchases := s.purchases + [p]))
  }

  // ---------------------------------------------------------------- sale

  /** The sale record a validated entry produces; the customer name defaults to the empty string. */
  function NewSale(f: SaleFields, stockName: string, purchaseRate: real, newId: Id, now: int): Sale {
    Sale(newId, f.date, f.customerType, OrEmpty(f.customerName), f.stockId, stockName,
         f.kg, f.bags, purchaseRate, f.saleRate, f.kg * f.saleRate, now)
  }

  function AddSale(s: Store, input: SaleInput, newId: Id, now: int): (r: Result<Store, Error>)
    ensures !ValidSale(input) ==> r == Failure(InvalidFields)
    ensures ValidSale(input) && DocRefOf(input.stockId.value).Refused? ==> r == Failure(InvalidDocumentPath)
    ensures ValidSale(input) && !DocRefOf(input.stockId.value).Refused? && !Resolves(s.stocks, input.stockId.value) ==>
      r == Failure(StockNotFound)
    ensures r.Success? <==> ValidSale(input) && Resolves(s.stocks, input.stockId.value)
    ensures r.Success? ==>
      && |r.value.sales| == |s.sales| + 1
      && r.value.sales == s.sales + [r.value.sales[|s.sales|]]
      && var x := r.value.sales[|s.sales|];
      && Some(x.date) == input.date
      && Some(CustomerTypeName(x.customerType)) == input.customerType
      && (input.customerName.Some? ==> x.customerName == input.customerName.value)
      && (input.customerName.None? ==> x.customerName == "")
      && Some(x.stockId) == input.stockId
      && x.kg == input.kg && x.bags as real == input.bags && x.saleRate == input.saleRate
      && x.totalAmount == input.kg * input.saleRate
      && x.stockName == Resolved(s.stocks, x.stockId).name
      && x.purchaseRate == ReferenceRate(s.purchases, x.stockId)
      && x.id == newId && x.createdAt == now
      && r.value.stocks == s.stocks && r.value.agents == s.agents && r.value.purchases == s.purchases
  {
    match ParseSale(input)
    case None => Failure(InvalidFields)
    case Some(f) =>
      if DocRefOf(f.stockId).Refused? then Failure(InvalidDocumentPath)
      else if !Resolves(s.stocks, f.stockId) then Failure(StockNotFound)
      else
        var x := NewSale(f, Resolved(s.stocks, f.stockId).name, SnapshotRate(s.purchases, f.stockId), newId, now);
        Success(s.(sales := s.sales + [x]))
  }

  // ---------------------------------------------------------------- listings

  function SaleDateKey(x: Sale): int {
    x.date
  }

  /** `getPurchases`: every purchase, latest date first. */
  function ListPurchases(s: Store): (r: seq<Purchase>)
    ensures multiset(r) == multiset(s.purchases)
    ensures forall i, j :: 0 <= i < j < |r| ==> r[i].date >= r[j].date
  {
    PurchaseListing(s.purchases)
  }

  /** `getSales`: every sale, latest date first. */
  function ListSales(s: Store): (r: seq<Sale>)
    ensures multiset(r) == multiset(s.sales)
    ensures forall i, j :: 0 <= i < j < |r| ==> r[i].date >= r[j].date
  {
    SortDesc(s.sales, SaleDateKey)
  }

  function StockCreatedKey(e: (Id, Stock)): int {
    e.1.createdAt
  }

  function AgentCreatedKey(e: (Id, Agent)): int {
    e.1.createdAt
  }

  /** `getStocks`: every stock document with its id, most recently created first. */
  ghost function ListStocks(s: Store): (r: seq<(Id, Stock)>)
    ensures |r| == |s.stocks|
    ensures forall e :: e in r <==> e.0 in s.stocks && s.stocks[e.0] == e.1
    ensures forall i, j :: 0 <= i < j < |r| ==> r[i].1.createdAt >= r[j].1.createdAt
  {
    var es := Entries(s.stocks);
    var r := SortDesc(es, StockCreatedKey);
    forall e ensures e in r <==> e in es {
      assert e in r <==> e in multiset(r);
    }
    r
  }

  /** `getAgents`: every agent document with its id, most recently created first. */
  ghost function ListAgents(s: Store): (r: seq<(Id, Agent)>)
    ensures |r| == |s.agents|
    ensures forall e :: e in r <==> e.0 in s.agents && s.agents[e.0] == e.1
    ensures forall i, j :: 0 <= i < j < |r| ==> r[i].1.createdAt >= r[j].1.createdAt
  {
    var es := Entries(s.agents);
    var r := SortDesc(es, AgentCreatedKey);
    forall e ensures e in r <==> e in es {
      assert e in r <==> e in multiset(r);
    }
    r
  }

  // ---------------------------------------------------------------- invariant

  /** Stock and agent writes keep the store well formed. */
  lemma MasterDataWritesPreserveWf(s: Store, newId: Id, now: int, id: Id, si: StockInput, ai: AgentInput)
    requires Wf(s) && FreshKey(s.stocks, newId) && FreshKey(s.agents, newId)
    ensures AddStock(s, si, newId, now).Success? ==> Wf(AddStock(s, si, newId, now).value)
    ensures UpdateStock(s, id, si).Success? ==> Wf(UpdateStock(s, id, si).value)
    ensures DeleteStock(s, id).Success? ==> Wf(DeleteStock(s, id).value)
    ensures AddAgent(s, ai, newId, now).Success? ==> Wf(AddAgent(s, ai, newId, now).value)
    ensures UpdateAgent(s, id, ai).Success? ==> Wf(UpdateAgent(s, id, ai).value)
    ensures DeleteAgent(s, id).Success? ==> Wf(DeleteAgent(s, id).value)
  {
  }

  /** A purchase write keeps the store well formed: the new record holds its derived total and bounds. */
  lemma AddPurchasePreservesWf(s: Store, input: PurchaseInput, newId: Id, now: int)
    requires Wf(s) && AddPurchase(s, input, newId, now).Success?
    ensures Wf(AddPurchase(s, input, newId, now).value)
  {
    var t := AddPurchase(s, input, newId, now).value;
    forall p | p in t.purchases ensures WellFormedPurchase(p) {
      if p !in s.purchases {
        assert t.purchases == s.purchases + [t.purchases[|s.purchases|]];
        assert p == t.purchases[|s.purchases|];
      }
    }
  }

  /** A sale built from accepted input holds its derived total, its bounds and, for a customer sale, a name. */
  lemma NewSaleWellFormed(f: SaleFields, input: SaleInput, stockName: string, rate: real, newId: Id, now: int)
    requires ParseSale(input) == Some(f) && DocRefOf(f.stockId).InCollection?
    ensures WellFormedSale(NewSale(f, stockName, rate, newId, now))
  {
  }

  /** A sale write keeps the store well formed. */
  lemma AddSalePreservesWf(s: Store, input: SaleInput, newId: Id, now: int)
    requires Wf(s) && AddSale(s, input, newId, now).Success?
    ensures Wf(AddSale(s, input, newId, now).value)
  {
    var f := ParseSale(input).value;
    var name := Resolved(s.stocks, f.stockId).name;
    var y := NewSale(f, name, SnapshotRate(s.purchases, f.stockId), newId, now);
    NewSaleWellFormed(f, input, name, SnapshotRate(s.purchases, f.stockId), newId, now);
    var t := AddSale(s, input, newId, now).value;
    assert t.sales == s.sales + [y];
    forall x | x in t.sales ensures WellFormedSale(x) {
      if x !in s.sales {
        assert x == y;
      }
    }
  }

  // ---------------------------------------------------------------- round trips

  /** Deleting a freshly added stock item restores the store. */
  lemma AddThenDeleteStock(s: Store, input: StockInput, newId: Id, now: int)
    requires FreshKey(s.stocks, newId) && ValidStock(input)
    ensures DeleteStock(AddStock(s, input, newId, now).value, newId) == Success(s)
  {
    var t := AddStock(s, input, newId, now).value;
    assert t.stocks - {newId} == s.stocks;
  }

  /** Deleting a freshly added agent restores the store. */
  lemma AddThenDeleteAgent(s: Store, input: AgentInput, newId: Id, now: int)
    requires FreshKey(s.agents, newId) && ValidAgent(input)
    ensures DeleteAgent(AddAgent(s, input, newId, now).value, newId) == Success(s)
  {
    var t := AddAgent(s, input, newId, now).value;
    assert t.agents - {newId} == s.agents;
  }

  /** Repeating an update has no further effect. */
  lemma UpdateStockIdempotent(s: Store, id: Id, input: StockInput)
    requires UpdateStock(s, id, input).Success?
    ensures UpdateStock(UpdateStock(s, id, input).value, id, input) == UpdateStock(s, id, input)
  {
    var t := UpdateStock(s, id, input).value;
    var k := DocRefOf(id).key;
    assert t.stocks[k := t.stocks[k]] == t.stocks;
  }

  /** Repeating an update has no further effect. */
  lemma UpdateAgentIdempotent(s: Store, id: Id, input: AgentInput)
    requires UpdateAgent(s, id, input).Success?
    ensures UpdateAgent(UpdateAgent(s, id, input).value, id, input) == UpdateAgent(s, id, input)
  {
    var t := UpdateAgent(s, id, input).value;
    var k := DocRefOf(id).key;
    assert t.agents[k := t.agents[k]] == t.agents;
  }

  /**
    Renaming a stock item after a sale was written does not refresh the
    sale's snapshot: the stored name is still the one current at write time.
   */
  lemma SnapshotSurvivesRename(s: Store, xi: SaleInput, newId: Id, now: int, si: StockInput)
    requires AddSale(s, xi, newId, now).Success?
    requires UpdateStock(AddSale(s, xi, newId, now).value, xi.stockId.value, si).Success?
    ensures var t := UpdateStock(AddSale(s, xi, newId, now).value, xi.stockId.value, si).value;
      t.sales[|s.sales|].stockName == Resolved(s.stocks, xi.stockId.value).name
  {
  }

  /** A cash sale keeps whatever customer name it was given (the default applies only to a missing one). */
  lemma CashSaleKeepsGivenName(s: Store, xi: SaleInput, name: string, newId: Id, now: int)
    requires xi.customerType == Some("cash") && xi.customerName == Some(name)
    requires AddSale(s, xi, newId, now).Success?
    ensures AddSale(s, xi, newId, now).value.sales[|s.sales|].customerName == name
  {
  }
}
