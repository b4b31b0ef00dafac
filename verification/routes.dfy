/**
  The HTTP route handlers of the ledger. Each one runs the same ledger write
  as the matching server action and turns its outcome into a response: the
  action's thrown validation and not-found errors become 400 replies, a
  failure of the record store itself becomes a 500 reply, and success is 201
  with the new document id (for a create) or 200.

  The update and delete handlers first insist on a truthy id (taken from the
  body for an update and from the query string for a delete) and answer 400
  before validating anything. An id the record store refuses as a document
  path (`Paths.DocRefOf`) surfaces as a 500 reply. The sale handler resolves
  the purchase-rate snapshot with its own `rate || 0` fallback.
 */
module Routes {
  import opened Core
  import opened Schemas
  import opened Records
  import opened Resolver
  import opened Paths
  import Ledger

  datatype Response =
    | Created(id: Id, message: string)
    | Done(message: string)
    | BadRequest(error: string)
    | ServerError(error: string)

  function Status(r: Response): int {
    match r
    case Created(_, _) => 201
    case Done(_) => 200
    case BadRequest(_) => 400
    case ServerError(_) => 500
  }

  /** The store after a request, and the response sent back. */
  datatype Reply = Reply(store: Store, response: Response)

  /** A failed ledger write as a response; `failed` is the handler's own 500 message. */
  function FailureResponse(e: Ledger.Error, failed: string): (r: Response)
    ensures Status(r) == 400 <==> e in {Ledger.InvalidFields, Ledger.AgentOrStockNotFound, Ledger.StockNotFound}
    ensures Status(r) == 400 ==> r.error == Ledger.Message(e)
    ensures Status(r) != 400 ==> r == ServerError(failed)
  {
    match e
    case InvalidFields => BadRequest("Invalid fields")
    case AgentOrStockNotFound => BadRequest("Agent or Stock not found")
    case StockNotFound => BadRequest("Stock not found")
    case InvalidDocumentPath => ServerError(failed)
    case DocumentNotFound => ServerError(failed)
  }

  // ---------------------------------------------------------------- stock

  function PostStock(s: Store, body: StockInput, newId: Id, now: int): (r: Reply)
    requires Ledger.FreshKey(s.stocks, newId)
    ensures Status(r.response) == 201 <==> ValidStock(body)
    ensures !ValidStock(body) ==> r == Reply(s, BadRequest("Invalid fields"))
    ensures ValidStock(body) ==>
      && r.response.id == newId
      && Ledger.AddStock(s, body, newId, now) == Success(r.store)
  {
    match Ledger.AddStock(s, body, newId, now)
    case Success(t) => Reply(t, Created(newId, "Stock created successfully"))
    case Failure(e) => Reply(s, FailureResponse(e, "Failed to create stock"))
  }

  function PutStock(s: Store, id: Option<string>, body: StockInput): (r: Reply)
    ensures !Truthy(id) ==> r == Reply(s, BadRequest("Stock ID is required"))
    ensures Truthy(id) && !ValidStock(body) ==> r == Reply(s, BadRequest("Invalid fields"))
    ensures Truthy(id) && ValidStock(body) && !Ledger.Resolves(s.stocks, id.value) ==>
      r == Reply(s, ServerError("Failed to update stock"))
    ensures Status(r.response) == 200 <==> Truthy(id) && ValidStock(body) && Ledger.Resolves(s.stocks, id.value)
    ensures Status(r.response) == 200 ==> Ledger.UpdateStock(s, id.value, body) == Success(r.store)
  {
    if !Truthy(id) then Reply(s, BadRequest("Stock ID is required"))
    else match Ledger.UpdateStock(s, id.value, body)
      case Success(t) => Reply(t, Done("Stock updated successfully"))
      case Failure(e) => Reply(s, FailureResponse(e, "Failed to update stock"))
  }

  function DeleteStockRoute(s: Store, id: Option<string>): (r: Reply)
    ensures !Truthy(id) ==> r == Reply(s, BadRequest("Stock ID is required"))
    ensures Truthy(id) && DocRefOf(id.value).Refused? ==> r == Reply(s, ServerError("Failed to delete stock"))
    ensures Truthy(id) && !DocRefOf(id.value).Refused? ==>
      && Status(r.response) == 200
      && (forall k :: k in r.store.stocks <==> k in s.stocks && DocRefOf(id.value) != InCollection(k))
      && Ledger.DeleteStock(s, id.value) == Success(r.store)
  {
    if !Truthy(id) then Reply(s, BadRequest("Stock ID is required"))
    else match Ledger.DeleteStock(s, id.value)
      case Success(t) => Reply(t, Done("Stock deleted successfully"))
      case Failure(e) => Reply(s, FailureResponse(e, "Failed to delete stock"))
  }

  // ---------------------------------------------------------------- agent

  function PostAgent(s: Store, body: AgentInput, newId: Id, now: int): (r: Reply)
    requires Ledger.FreshKey(s.agents, newId)
    ensures Status(r.response) == 201 <==> ValidAgent(body)
    ensures !ValidAgent(body) ==> r == Reply(s, BadRequest("Invalid fields"))
    ensures ValidAgent(body) ==>
      && r.response.id == newId
      && Ledger.AddAgent(s, body, newId, now) == Success(r.store)
      && (body.phone.Some? ==> r.store.agents[newId].phone == body.phone.value)
      && (body.phone.None? ==> r.store.agents[newId].phone == "")
  {
    match Ledger.AddAgent(s, body, newId, now)
    case Success(t) => Reply(t, Created(newId, "Agent created successfully"))
    case Failure(e) => Reply(s, FailureResponse(e, "Failed to create agent"))
  }

  function PutAgent(s: Store, id: Option<string>, body: AgentInput): (r: Reply)
    ensures !Truthy(id) ==> r == Reply(s, BadRequest("Agent ID is required"))
    ensures Truthy(id) && !ValidAgent(body) ==> r == Reply(s, BadRequest("Invalid fields"))
    ensures Truthy(id) && ValidAgent(body) && !Ledger.Resolves(s.agents, id.value) ==>
      r == Reply(s, ServerError("Failed to update agent"))
    ensures Status(r.response) == 200 <==> Truthy(id) && ValidAgent(body) && Ledger.Resolves(s.agents, id.value)
    ensures Status(r.response) == 200 ==>
      var k := DocRefOf(id.value).key;
      && Ledger.UpdateAgent(s, id.value, body) == Success(r.store)
      && (body.phone.Some? ==> r.store.agents[k].phone == body.phone.value)
      && (body.phone.None? ==> r.store.agents[k].phone == "")
  {
    if !Truthy(id) then Reply(s, BadRequest("Agent ID is required"))
    else match Ledger.UpdateAgent(s, id.value, body)
      case Success(t) => Reply(t, Done("Agent updated successfully"))
      case Failure(e) => Reply(s, FailureResponse(e, "Failed to update agent"))
  }

  function DeleteAgentRoute(s: Store, id: Option<string>): (r: Reply)
    ensures !Truthy(id) ==> r == Reply(s, BadRequest("Agent ID is required"))
    ensures Truthy(id) && DocRefOf(id.value).Refused? ==> r == Reply(s, ServerError("Failed to delete agent"))
    ensures Truthy(id) && !DocRefOf(id.value).Refused? ==>
      && Status(r.response) == 200
      && (forall k :: k in r.store.agents <==> k in s.agents && DocRefOf(id.value) != InCollection(k))
      && Ledger.DeleteAgent(s, id.value) == Success(r.store)
  {
    if !Truthy(id) then Reply(s, BadRequest("Agent ID is required"))
    else match Ledger.DeleteAgent(s, id.value)
      case Success(t) => Reply(t, Done("Agent deleted successfully"))
      case Failure(e) => Reply(s, FailureResponse(e, "Failed to delete agent"))
  }

  // ---------------------------------------------------------------- purchase

  function PostPurchase(s: Store, body: PurchaseInput, newId: Id, now: int): (r: Reply)
    ensures !ValidPurchase(body) ==> r == Reply(s, BadRequest("Invalid fields"))
    ensures ValidPurchase(body) && (DocRefOf(body.agentId.value).Refused? || DocRefOf(body.stockId.value).Refused?) ==>
      r == Reply(s, ServerError("Failed to create purchase"))
    ensures
      (&& ValidPurchase(body) && !DocRefOf(body.agentId.value).Refused? && !DocRefOf(body.stockId.value).Refused?
       && !(Ledger.Resolves(s.agents, body.agentId.value) && Ledger.Resolves(s.stocks, body.stockId.value)))
      ==> r == Reply(s, BadRequest("Agent or Stock not found"))
    ensures Status(r.response) == 201 <==> Ledger.AddPurchase(s, body, newId, now).Success?
    ensures Status(r.response) == 201 ==>
      && r.response.id == newId
      && Ledger.AddPurchase(s, body, newId, now) == Success(r.store)
      && r.store.purchases[|s.purchases|].totalAmount == body.kg * body.rate
    ensures Status(r.response) != 201 ==> r.store == s
  {
    match Ledger.AddPurchase(s, body, newId, now)
    case Success(t) => Reply(t, Created(newId, "Purchase created successfully"))
    case Failure(e) => Reply(s, FailureResponse(e, "Failed to create purchase"))
  }

  // ---------------------------------------------------------------- sale

  /** The handler's own snapshot: 0 without a purchase, else the latest rate `|| 0`. */
  function RouteSnapshotRate(ps: seq<Purchase>, k: Id): (r: real)
    ensures r == ReferenceRate(ps, k)
  {
    match QueryLatest(ps, k)
    case None => 0.0
    case Some(p) => OrZero(p.rate)
  }

  function PostSale(s: Store, body: SaleInput, newId: Id, now: int): (r: Reply)
    ensures !ValidSale(body) ==> r == Reply(s, BadRequest("Invalid fields"))
    ensures ValidSale(body) && !DocRefOf(body.stockId.value).Refused? && !Ledger.Resolves(s.stocks, body.stockId.value) ==>
      r == Reply(s, BadRequest("Stock not found"))
    ensures ValidSale(body) && DocRefOf(body.stockId.value).Refused? ==>
      r == Reply(s, ServerError("Failed to create sale"))
    ensures Status(r.response) == 201 <==> ValidSale(body) && Ledger.Resolves(s.stocks, body.stockId.value)
    ensures Status(r.response) == 201 ==>
      && r.response.id == newId
      && |r.store.sales| == |s.sales| + 1
      && r.store.sales[|s.sales|].totalAmount == body.kg * body.saleRate
      && (body.customerName.Some? ==> r.store.sales[|s.sales|].customerName == body.customerName.value)
      && (body.customerName.None? ==> r.store.sales[|s.sales|].customerName == "")
      && r.store.sales[|s.sales|].purchaseRate == ReferenceRate(s.purchases, body.stockId.value)
      && r.store.purchases == s.purchases && r.store.stocks == s.stocks && r.store.agents == s.agents
    ensures Status(r.response) != 201 ==> r.store == s
  {
    match ParseSale(body)
    case None => Reply(s, BadRequest("Invalid fields"))
    case Some(f) =>
      match DocRefOf(f.stockId)
      case Refused => Reply(s, ServerError("Failed to create sale"))
      case Nested => Reply(s, BadRequest("Stock not found"))
      case InCollection(k) =>
        if k !in s.stocks then Reply(s, BadRequest("Stock not found"))
        else
          var x := Ledger.NewSale(f, s.stocks[k].name, RouteSnapshotRate(s.purchases, f.stockId), newId, now);
          assert body.stockId == Some(f.stockId) && body.kg == f.kg && body.saleRate == f.saleRate;
          assert x.customerName == OrEmpty(body.customerName);
          Reply(s.(sales := s.sales + [x]), Created(newId, "Sale created successfully"))
  }

  /**
    The sale handler and the sale action write the same record: with real
    rates the `|| 0` fallback never fires, so both snapshot the same rate.
   */
  lemma PostSaleAgreesWithAddSale(s: Store, body: SaleInput, newId: Id, now: int)
    ensures var r := PostSale(s, body, newId, now);
      match Ledger.AddSale(s, body, newId, now)
      case Success(t) => r == Reply(t, Created(newId, "Sale created successfully"))
      case Failure(e) => r == Reply(s, FailureResponse(e, "Failed to create sale"))
  {
    match ParseSale(body)
    case None =>
    case Some(f) =>
      if Ledger.Resolves(s.stocks, f.stockId) {
        match QueryLatest(s.purchases, f.stockId)
        case None =>
        case Some(p) =>
      }
  }

  // ---------------------------------------------------------------- document paths

  /** A delete whose id holds one inner '/' names no document, and the store's refusal becomes a 500. */
  lemma SlashIdDeleteFails(s: Store, a: string, b: string)
    requires a != "" && b != "" && NoSlash(a) && NoSlash(b)
    ensures DeleteStockRoute(s, Some(a + "/" + b)) == Reply(s, ServerError("Failed to delete stock"))
    ensures DeleteAgentRoute(s, Some(a + "/" + b)) == Reply(s, ServerError("Failed to delete agent"))
  {
    TwoComponentsRefused(a, b);
  }

  /** A sale naming a stock id with one inner '/' is not a missing stock item (400) but a store failure (500). */
  lemma SlashStockIdSaleFails(s: Store, body: SaleInput, newId: Id, now: int, a: string, b: string)
    requires a != "" && b != "" && NoSlash(a) && NoSlash(b)
    requires ValidSale(body) && body.stockId == Some(a + "/" + b)
    ensures PostSale(s, body, newId, now) == Reply(s, ServerError("Failed to create sale"))
  {
    TwoComponentsRefused(a, b);
  }

  /** Surrounding slashes do not change which stock item a delete removes. */
  lemma SlashedIdDeletesSameStock(s: Store, k: string)
    requires k != "" && NoSlash(k)
    ensures DeleteStockRoute(s, Some("/" + k)) == DeleteStockRoute(s, Some(k))
    ensures DeleteStockRoute(s, Some(k + "/")) == DeleteStockRoute(s, Some(k))
    ensures Status(DeleteStockRoute(s, Some(k)).response) == 200
    ensures DeleteStockRoute(s, Some(k)).store.stocks == s.stocks - {k}
  {
    PlainIdNamesDocument(k);
  }

  // ---------------------------------------------------------------- JSON bodies

  /**
    A date field as `request.json()` delivers it. JSON has no date type: the
    browser's `JSON.stringify` writes a date as its ISO text, so a date that
    is present is always text.
   */
  datatype JsonDate = NoDate | DateText(text: string)

  /** `z.date()` as the schemas write it: only a date object passes, and no JSON value is one. */
  function SchemaDate(d: JsonDate): (r: Option<int>)
    ensures r.None?
  {
    None
  }

  /**
    `z.coerce.date()`: the value goes through `new Date(value)`, which is the
    parameter `parse` here. A missing value makes an invalid date.
   */
  function SchemaCoercedDate(d: JsonDate, parse: string -> Option<int>): (r: Option<int>)
    ensures d.NoDate? ==> r.None?
    ensures d.DateText? ==> r == parse(d.text)
  {
    match d
    case NoDate => None
    case DateText(t) => parse(t)
  }

  /** A purchase request body: the date as JSON delivers it, every other field as in `PurchaseInput`. */
  datatype PurchaseBody = PurchaseBody(
    date: JsonDate, agentId: Option<string>, stockId: Option<string>, kg: real, bags: real, rate: real)

  function PurchaseBodyInput(b: PurchaseBody, date: Option<int>): PurchaseInput {
    PurchaseInput(date, b.agentId, b.stockId, b.kg, b.bags, b.rate)
  }

  /** The purchase handler as written, on the body it receives: it can never create a purchase. */
  function PostPurchaseAsWritten(s: Store, b: PurchaseBody, newId: Id, now: int): (r: Reply)
    ensures r == Reply(s, BadRequest("Invalid fields"))
  {
    PostPurchase(s, PurchaseBodyInput(b, SchemaDate(b.date)), newId, now)
  }

  /** The purchase handler with the date coerced: a body whose date text parses is handled like a form. */
  function PostPurchaseCoerced(s: Store, b: PurchaseBody, parse: string -> Option<int>, newId: Id, now: int): (r: Reply)
    ensures SchemaCoercedDate(b.date, parse).None? ==> r == Reply(s, BadRequest("Invalid fields"))
    ensures Status(r.response) == 201 <==>
      && b.date.DateText? && parse(b.date.text).Some?
      && Ledger.AddPurchase(s, PurchaseBodyInput(b, parse(b.date.text)), newId, now).Success?
    ensures Status(r.response) == 201 ==>
      && r.response.id == newId
      && Ledger.AddPurchase(s, PurchaseBodyInput(b, parse(b.date.text)), newId, now) == Success(r.store)
  {
    PostPurchase(s, PurchaseBodyInput(b, SchemaCoercedDate(b.date, parse)), newId, now)
  }

  /**
    A well-formed JSON purchase body naming an existing agent and stock item,
    with a date text the date parser accepts, is refused as written and
    creates the purchase once the date is coerced.
   */
  lemma JsonPurchaseRefused(s: Store, b: PurchaseBody, parse: string -> Option<int>, newId: Id, now: int)
    requires b.date.DateText? && parse(b.date.text).Some?
    requires b.agentId.Some? && b.stockId.Some?
    requires PositiveNumber(b.kg) && BagCount(b.bags) && PositiveNumber(b.rate)
    requires Ledger.Resolves(s.agents, b.agentId.value) && Ledger.Resolves(s.stocks, b.stockId.value)
    ensures PostPurchaseAsWritten(s, b, newId, now).response == BadRequest("Invalid fields")
    ensures PostPurchaseCoerced(s, b, parse, newId, now).response == Created(newId, "Purchase created successfully")
  {
    assert ValidPurchase(PurchaseBodyInput(b, parse(b.date.text)));
  }

  /** A sale request body: the date as JSON delivers it, every other field as in `SaleInput`. */
  datatype SaleBody = SaleBody(
    date: JsonDate, customerType: Option<string>, customerName: Option<string>,
    stockId: Option<string>, kg: real, bags: real, saleRate: real)

  function SaleBodyInput(b: SaleBody, date: Option<int>): SaleInput {
    SaleInput(date, b.customerType, b.customerName, b.stockId, b.kg, b.bags, b.saleRate)
  }

  /** The sale handler as written, on the body it receives: it can never create a sale. */
  function PostSaleAsWritten(s: Store, b: SaleBody, newId: Id, now: int): (r: Reply)
    ensures r == Reply(s, BadRequest("Invalid fields"))
  {
    PostSale(s, SaleBodyInput(b, SchemaDate(b.date)), newId, now)
  }

  /** The sale handler with the date coerced: a body whose date text parses is handled like a form. */
  function PostSaleCoerced(s: Store, b: SaleBody, parse: string -> Option<int>, newId: Id, now: int): (r: Reply)
    ensures SchemaCoercedDate(b.date, parse).None? ==> r == Reply(s, BadRequest("Invalid fields"))
    ensures Status(r.response) == 201 <==>
      && b.date.DateText? && parse(b.date.text).Some?
      && Ledger.AddSale(s, SaleBodyInput(b, parse(b.date.text)), newId, now).Success?
    ensures Status(r.response) == 201 ==>
      && r.response.id == newId
      && Ledger.AddSale(s, SaleBodyInput(b, parse(b.date.text)), newId, now) == Success(r.store)
  {
    var i := SaleBodyInput(b, SchemaCoercedDate(b.date, parse));
    PostSaleAgreesWithAddSale(s, i, newId, now);
    PostSale(s, i, newId, now)
  }

  /**
    A well-formed JSON cash-sale body naming an existing stock item, with a
    date text the date parser accepts, is refused as written and creates the
    sale once the date is coerced.
   */
  lemma JsonSaleRefused(s: Store, b: SaleBody, parse: string -> Option<int>, newId: Id, now: int)
    requires b.date.DateText? && parse(b.date.text).Some?
    requires b.customerType == Some("cash") && b.stockId.Some?
    requires PositiveNumber(b.kg) && BagCount(b.bags) && PositiveNumber(b.saleRate)
    requires Ledger.Resolves(s.stocks, b.stockId.value)
    ensures PostSaleAsWritten(s, b, newId, now).response == BadRequest("Invalid fields")
    ensures PostSaleCoerced(s, b, parse, newId, now).response == Created(newId, "Sale created successfully")
  {
    assert ValidSale(SaleBodyInput(b, parse(b.date.text)));
  }
}
