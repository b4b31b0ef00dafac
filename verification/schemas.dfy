/**
  The request validators of the ledger (the zod schemas for login, stock,
  agent, purchase and sale entries), stated over already-coerced values.

  Each input datatype holds what a caller sends; a field the caller may leave
  out is an `Option`. Each `Parse…` function is the schema's `safeParse`: it
  accepts exactly the inputs its `Valid…` predicate describes and returns the
  typed fields the ledger operations use. A `…ToInput` function turns typed
  fields back into an input, and the round-trip lemmas connect the two.
 */
module Schemas {
  import opened Core

  /** The smallest number `positiveNumber` accepts. */
  const MinAmount: real := 0.01

  /** `z.coerce.number().min(0.01)`: amounts of kg, rate and saleRate. */
  predicate PositiveNumber(x: real) {
    x >= MinAmount
  }

  /** `z.coerce.number().int().min(0)`: the bag count. */
  predicate BagCount(x: real) {
    x == x.Floor as real && x >= 0.0
  }

  /** `z.string().min(1)` on a field that must be present. */
  predicate NonEmpty(s: Option<string>) {
    s.Some? && |s.value| >= 1
  }

  // ---------------------------------------------------------------- login

  /** The e-mail format check of the login schema is not modelled. */
  datatype LoginInput = LoginInput(email: string, password: string)

  /** The password rule of the login schema: at least one character. */
  predicate PasswordAccepted(l: LoginInput) {
    |l.password| >= 1
  }

  lemma EmptyPasswordRejected(l: LoginInput)
    ensures PasswordAccepted(l) <==> l.password != ""
  {
    if l.password != "" {
      assert |l.password| != 0;
    }
  }

  // ---------------------------------------------------------------- stock

  datatype StockType = Tea | Coffee

  function StockTypeName(t: StockType): string {
    match t
    case Tea => "tea"
    case Coffee => "coffee"
  }

  /** `z.enum(['tea', 'coffee'])`. */
  function ParseStockType(s: Option<string>): (r: Option<StockType>)
    ensures r.Some? <==> s == Some("tea") || s == Some("coffee")
    ensures r.Some? ==> s == Some(StockTypeName(r.value))
  {
    if s == Some("tea") then Some(Tea)
    else if s == Some("coffee") then Some(Coffee)
    else None
  }

  /** A stock form: the optional `id` of the schema is ignored by every operation and left out. */
  datatype StockInput = StockInput(name: Option<string>, kind: Option<string>)

  datatype StockFields = StockFields(name: string, kind: StockType)

  predicate ValidStock(i: StockInput) {
    NonEmpty(i.name) && ParseStockType(i.kind).Some?
  }

  function ParseStock(i: StockInput): (r: Option<StockFields>)
    ensures r.Some? <==> i.name.Some? && |i.name.value| >= 1 && (i.kind == Some("tea") || i.kind == Some("coffee"))
    ensures r.Some? ==> i == StockToInput(r.value)
  {
    if ValidStock(i) then Some(StockFields(i.name.value, ParseStockType(i.kind).value)) else None
  }

  function StockToInput(f: StockFields): StockInput {
    StockInput(Some(f.name), Some(StockTypeName(f.kind)))
  }

  /** Every stock with a non-empty name is accepted back unchanged. */
  lemma StockRoundTrip(f: StockFields)
    requires f.name != ""
    ensures ParseStock(StockToInput(f)) == Some(f)
  {
    assert |f.name| >= 1;
    match f.kind
    case Tea =>
    case Coffee =>
  }

  // ---------------------------------------------------------------- agent

  datatype AgentInput = AgentInput(name: Option<string>, phone: Option<string>)

  datatype AgentFields = AgentFields(name: string, phone: Option<string>)

  predicate ValidAgent(i: AgentInput) {
    NonEmpty(i.name)
  }

  /** The agent schema requires a non-empty name; the phone may be absent or anything. */
  function ParseAgent(i: AgentInput): (r: Option<AgentFields>)
    ensures r.Some? <==> i.name.Some? && |i.name.value| >= 1
    ensures r.Some? ==> r.value.phone == i.phone && Some(r.value.name) == i.name
  {
    if ValidAgent(i) then Some(AgentFields(i.name.value, i.phone)) else None
  }

  function AgentToInput(f: AgentFields): AgentInput {
    AgentInput(Some(f.name), f.phone)
  }

  lemma AgentRoundTrip(f: AgentFields)
    requires f.name != ""
    ensures ParseAgent(AgentToInput(f)) == Some(f)
  {
    assert |f.name| >= 1;
  }

  // ---------------------------------------------------------------- purchase

  /** A purchase form; `date`, `agentId` and `stockId` are required but may be missing from a body. */
  datatype PurchaseInput = PurchaseInput(
    date: Option<int>, agentId: Option<string>, stockId: Option<string>,
    kg: real, bags: real, rate: real)

  datatype PurchaseFields = PurchaseFields(
    date: int, agentId: string, stockId: string, kg: real, bags: nat, rate: real)

  predicate ValidPurchase(i: PurchaseInput) {
    && i.date.Some? && i.agentId.Some? && i.stockId.Some?
    && PositiveNumber(i.kg) && BagCount(i.bags) && PositiveNumber(i.rate)
  }

  function ParsePurchase(i: PurchaseInput): (r: Option<PurchaseFields>)
    ensures r.Some? <==>
      && i.date.Some? && i.agentId.Some? && i.stockId.Some?
      && i.kg >= 0.01 && i.rate >= 0.01 && i.bags >= 0.0 && i.bags == i.bags.Floor as real
    ensures r.Some? ==> i == PurchaseToInput(r.value)
  {
    if ValidPurchase(i) then
      Some(PurchaseFields(i.date.value, i.agentId.value, i.stockId.value, i.kg, i.bags.Floor, i.rate))
    else None
  }

  function PurchaseToInput(f: PurchaseFields): PurchaseInput {
    PurchaseInput(Some(f.date), Some(f.agentId), Some(f.stockId), f.kg, f.bags as real, f.rate)
  }

  /** Parsed purchase fields re-enter the schema unchanged whenever their amounts are admissible. */
  lemma PurchaseRoundTrip(f: PurchaseFields)
    requires f.kg >= MinAmount && f.rate >= MinAmount
    ensures ParsePurchase(PurchaseToInput(f)) == Some(f)
  {
  }

  // ---------------------------------------------------------------- sale

  datatype CustomerType = Customer | Cash

  function CustomerTypeName(t: CustomerType): string {
    match t
    case Customer => "customer"
    case Cash => "cash"
  }

  /** `z.enum(['customer', 'cash'])`. */
  function ParseCustomerType(s: Option<string>): (r: Option<CustomerType>)
    ensures r.Some? <==> s == Some("customer") || s == Some("cash")
    ensures r.Some? ==> s == Some(CustomerTypeName(r.value))
  {
    if s == Some("customer") then Some(Customer)
    else if s == Some("cash") then Some(Cash)
    else None
  }

  datatype SaleInput = SaleInput(
    date: Option<int>, customerType: Option<string>, customerName: Option<string>,
    stockId: Option<string>, kg: real, bags: real, saleRate: real)

  datatype SaleFields = SaleFields(
    date: int, customerType: CustomerType, customerName: Option<string>,
    stockId: string, kg: real, bags: nat, saleRate: real)

  /** The `refine` of the sale schema: a `customer` sale needs a truthy customer name. */
  predicate CustomerNamed(i: SaleInput) {
    i.customerType == Some("customer") ==> Truthy(i.customerName)
  }

  predicate ValidSale(i: SaleInput) {
    && i.date.Some? && ParseCustomerType(i.customerType).Some? && i.stockId.Some?
    && PositiveNumber(i.kg) && BagCount(i.bags) && PositiveNumber(i.saleRate)
    && CustomerNamed(i)
  }

  function ParseSale(i: SaleInput): (r: Option<SaleFields>)
    ensures r.Some? <==>
      && i.date.Some? && i.stockId.Some?
      && (i.customerType == Some("cash") || (i.customerType == Some("customer") && i.customerName.Some? && |i.customerName.value| > 0))
      && i.kg >= 0.01 && i.saleRate >= 0.01 && i.bags >= 0.0 && i.bags == i.bags.Floor as real
    ensures r.Some? ==> i == SaleToInput(r.value)
  {
    if ValidSale(i) then
      Some(SaleFields(i.date.value, ParseCustomerType(i.customerType).value, i.customerName,
                      i.stockId.value, i.kg, i.bags.Floor, i.saleRate))
    else None
  }

  function SaleToInput(f: SaleFields): SaleInput {
    SaleInput(Some(f.date), Some(CustomerTypeName(f.customerType)), f.customerName,
              Some(f.stockId), f.kg, f.bags as real, f.saleRate)
  }

  lemma SaleRoundTrip(f: SaleFields)
    requires f.kg >= MinAmount && f.saleRate >= MinAmount
    requires f.customerType == Customer ==> Truthy(f.customerName)
    ensures ParseSale(SaleToInput(f)) == Some(f)
  {
    match f.customerType
    case Customer =>
    case Cash =>
  }

  /** A cash sale passes the refine whatever customer name it carries. */
  lemma CashSaleIgnoresName(i: SaleInput, name: Option<string>)
    requires i.customerType == Some("cash")
    ensures ValidSale(i) <==> ValidSale(i.(customerName := name))
  {
  }

  /** A customer sale with an absent or empty name is rejected, whatever its other fields. */
  lemma CustomerSaleNeedsName(i: SaleInput)
    requires i.customerType == Some("customer")
    requires i.customerName == None || i.customerName == Some("")
    ensures ParseSale(i) == None
  {
  }
}
