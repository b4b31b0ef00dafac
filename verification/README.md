# Tea and coffee ledger — a Dafny model of its core

The ledger records stock items (tea or coffee), agents (suppliers), purchases
from agents and sales to customers. It has two entry points that implement the
same writes. The first is the server actions in `src/lib/actions/*`, which throw
on bad input. The second is the admin route handlers in `src/app/api/*/route.ts`,
which answer with HTTP status codes. This project models the rules behind both,
over a record store that is abstracted to immutable state:

- `Core` (`core.dfy`) defines optional values, results, document ids and JavaScript string truthiness (`s || ''`).
- `Schemas` (`schemas.dfy`) holds the zod validators of `src/lib/schemas.ts`, written as predicates and
  `Parse…` functions over already-coerced values, with round-trip lemmas back to the input.
- `Records` (`records.dfy`) holds the record shapes of `src/lib/types.ts:3-44`. It also defines the `Store`:
  stock items and agents as maps from id to record, purchases and sales as sequences in write order.
  Its invariant `Wf` says two things: every key is a plain document id, and every stored purchase and
  sale references documents by ids the store accepts and holds its derived total and its validated bounds.
- `Paths` (`paths.dfy`) is the store's reading of a document id as a path: `split('/')` and its inverse
  `join`, and `DocRefOf`, which says whether an id is refused, names a document of the collection, or
  names a document of a sub-collection.
- `Ordering` (`ordering.dfy`) is one stable insertion sort, descending by an integer key, together with
  `Filter`. It is the browser's `Array.sort`, and it also stands for the store's `orderBy(…, 'desc')`.
  For the store this is a modelling choice about ties: the store orders equal keys by document id,
  descending, while the sort keeps the earlier write first.
- `Resolver` (`resolver.dfy`) is the latest-purchase-rate resolver. It appears three times in the source:
  - the snapshot the sale write takes;
  - the `getLatestPurchaseRate` server action;
  - `saleApi.getLatestPurchaseRate` in the browser.

  All three are proved equal to one reference definition. `LatestIndex` picks the purchase of the
  stock with the greatest date, the earliest in store order among ties (the tie rule is the modelling
  choice described under `Ordering`). `ReferenceRate` is that
  purchase's rate, or 0 when the stock has no purchase.
- `Ledger` (`ledger.dfy`) holds each write exactly once: add, update and delete for stock items and
  agents, add purchase and add sale. It also holds the listings, whose order is newest first.
- `Routes` (`routes.dfy`) holds the route handlers. They wrap the `Ledger` writes in HTTP replies, with
  400 for a missing id, invalid fields or a missing referenced record, 500 for a failure of the store,
  and 201 or 200 for success.
- `Dashboard` (`dashboard.dfy`) holds the dashboard totals.
- `Header` (`header.dfy`) holds the page title derived from the URL path.

Modelling choices:

- Dates and creation times are integers. Amounts are reals.
- A new document's id and its creation time come from the store, so they are parameters. An id for a
  new stock item or agent is a plain document id not yet in use (`Ledger.FreshKey`).
- Three behaviours of the record store are modelled:
  - an id that the store cannot read as a document of the collection is refused (`InvalidDocumentPath`):
    the empty id, an id containing `//`, and an id with an even number of non-empty `/`-separated pieces,
    such as `a/b`;
  - an update of a missing document fails (`DocumentNotFound`);
  - a delete of a missing document succeeds without effect.

  A route handler turns the first two into a 500 reply. An id with surrounding slashes (`/a/`) names
  the document `a`. An id with three or more pieces (`a/b/c`) names a document of a sub-collection,
  and the model never stores one, so it is never found.

Where the source and its design description disagree, the model follows the source:

- The sale write stores `customerName || ''` for every sale. A cash sale given a name keeps that name
  (`Ledger.CashSaleKeepsGivenName`); it is not blanked.
- The dashboard summary has exactly three figures. No net-profit value is computed.

## Model

| member | source | states |
|---|---|---|
| Core.OrEmpty | src/lib/actions/sale.ts:51 | `s \|\| ''` gives back any string that is present unchanged (an empty one included, since it becomes '' either way) and '' for an absent one |
| Schemas.EmptyPasswordRejected | src/lib/schemas.ts:5 | a login password is accepted exactly when it is not empty |
| Schemas.ParseStockType | src/lib/schemas.ts:11 | the stock type is accepted exactly when it is "tea" or "coffee", and the parsed value names it back |
| Schemas.ParseStock | src/lib/schemas.ts:8-12 | a stock entry is accepted iff its name is present and non-empty and its type is tea or coffee; the accepted fields reproduce the input |
| Schemas.StockRoundTrip | src/lib/schemas.ts:8-12 | every stock with a non-empty name re-enters the schema and parses to itself |
| Schemas.ParseAgent | src/lib/schemas.ts:14-18 | an agent entry is accepted iff its name is present and non-empty, whatever the phone; name and phone pass through unchanged |
| Schemas.AgentRoundTrip | src/lib/schemas.ts:14-18 | every agent with a non-empty name parses back to itself |
| Schemas.ParsePurchase | src/lib/schemas.ts:20-30 | a purchase is accepted iff date, agentId and stockId are present, kg and rate are at least 0.01, and bags is a non-negative integer; the fields reproduce the input |
| Schemas.PurchaseRoundTrip | src/lib/schemas.ts:20-30 | purchase fields whose amounts are at least 0.01 parse back to themselves |
| Schemas.ParseCustomerType | src/lib/schemas.ts:35 | the customer type is accepted exactly when it is "customer" or "cash" |
| Schemas.ParseSale | src/lib/schemas.ts:32-44 | a sale is accepted iff date and stockId are present, kg and saleRate are at least 0.01, bags is a non-negative integer, and the type is cash or else customer with a non-empty name |
| Schemas.SaleRoundTrip | src/lib/schemas.ts:32-44 | sale fields with admissible amounts, and a name when the type is customer, parse back to themselves |
| Schemas.CashSaleIgnoresName | src/lib/schemas.ts:41 | for a cash sale, validity does not depend on the customer name at all |
| Schemas.CustomerSaleNeedsName | src/lib/schemas.ts:41-44 | a customer sale with an absent or empty name is rejected |
| Ordering.Insert | src/lib/actions/purchase.ts:11 | inserting adds exactly one element and keeps every other; the new head is `x` when the old head's key is not larger, and the old head otherwise |
| Ordering.InsertPos | src/lib/actions/purchase.ts:11 | the insertion point is preceded only by larger keys and followed by a key that is not larger |
| Ordering.InsertPlacement | src/lib/actions/purchase.ts:11 | inserting splices `x` in at the insertion point, leaving the elements before and after it in order |
| Ordering.InsertKeepsSorted | src/lib/actions/purchase.ts:11 | inserting into a sequence sorted descending keeps it sorted |
| Ordering.InsertBounded | src/lib/actions/purchase.ts:11 | inserting an element below a bound keeps every key below the bound |
| Ordering.ConsSorted | src/lib/actions/purchase.ts:11 | a sorted sequence under a head at least as large as its own head is sorted |
| Ordering.SortedBelowHead | src/lib/actions/purchase.ts:11 | in a sequence sorted descending, a bound on the head bounds every element |
| Ordering.SortDesc | src/lib/actions/purchase.ts:11 | the sorted result is a permutation of the input, ordered by key descending |
| Ordering.FilterMembers | src/lib/api.ts:71 | the filter keeps exactly the accepted elements of the input |
| Ordering.SortSortedIsIdentity | src/lib/api.ts:74 | sorting a sequence already sorted by the same key changes nothing |
| Ordering.FilterBounded | src/lib/api.ts:71 | filtering keeps every key below a bound that the whole input respects |
| Ordering.FilterInsertFront | src/lib/api.ts:71-74 | inserting in front of a sorted sequence commutes with filtering |
| Ordering.FilterInsert | src/lib/api.ts:71-74 | filtering after an insertion equals inserting (if kept) after filtering |
| Ordering.FilterSortCommute | src/lib/api.ts:71-74 | because the sort is stable, filtering then sorting equals sorting then filtering |
| Ordering.FilterIdempotent | src/lib/api.ts:71 | filtering twice by the same test equals filtering once |
| Ordering.FilterConcat | src/lib/api.ts:71 | filtering two sequences joined is joining their filterings |
| Ordering.FilterAllKept | src/lib/api.ts:71 | a sequence whose every element passes the test filters to itself |
| Ordering.Entries | src/lib/actions/stock.ts:12-15 | a listing of a keyed collection holds each document once, with its id, and nothing else |
| Resolver.LatestIndex | src/lib/actions/sale.ts:37-44 | there is no latest purchase iff no purchase has the stock; otherwise the result has the maximal date among them, and among equal dates it is the first in store order (a modelled tie rule) |
| Resolver.QueryLatest | src/lib/actions/sale.ts:37-43 | the store query finds nothing exactly when the reference `LatestIndex` finds nothing, and otherwise finds the purchase it designates: the latest one, with ties broken by the modelled write-order rule |
| Resolver.QueryFindsLatest | src/lib/actions/sale.ts:37-44 | filtering by stock and sorting by date descending gives nothing iff no purchase has the stock, and otherwise puts the latest purchase at the head |
| Resolver.LatestTail | src/lib/actions/sale.ts:37-44 | a latest purchase other than the first is still the latest one once the first purchase is dropped |
| Resolver.LatestWhenFirstMatches | src/lib/actions/sale.ts:37-44 | when the first purchase is of the stock, the sorted matches are non-empty and headed by the latest purchase |
| Resolver.FirstIsLatest | src/lib/actions/sale.ts:40 | a first purchase that is the latest goes in front of every sorted match of the rest |
| Resolver.LaterIsLatest | src/lib/actions/sale.ts:40 | a later latest purchase stays ahead of the first purchase of the same stock |
| Resolver.LatestWhenFirstOther | src/lib/actions/sale.ts:39 | a first purchase of another stock changes neither whether a match exists nor which purchase is latest |
| Resolver.SortedHeadMatches | src/lib/actions/sale.ts:39-40 | the head of the sorted matches is a purchase of the store for that stock |
| Resolver.SnapshotRate | src/lib/actions/sale.ts:37-44 | the snapshot is the reference rate: 0 when no purchase of the stock exists, and otherwise the rate of the purchase `LatestIndex` designates |
| Resolver.LatestPurchaseRate | src/lib/actions/sale.ts:65-79 | the server action answers 0 for an empty id without consulting purchases, and otherwise the reference rate |
| Resolver.OrZero | src/lib/api.ts:75 | `rate \|\| 0` leaves every real rate as it is |
| Resolver.PurchaseListing | src/app/api/purchases/route.ts:14 | the listing holds exactly the stored purchases, latest date first |
| Resolver.ClientLatestRate | src/lib/api.ts:69-76 | the browser answers the reference rate of the listing it reads: 0 when no purchase of the stock is listed, and otherwise the rate of the latest-dated match, earliest in the listing among ties |
| Resolver.ClientAgreesWithAction | src/lib/api.ts:69-76 | on a well-formed store, the browser reading the sorted listing returns the same rate as the server action reading the store, ties and the empty id included |
| Resolver.OtherStocksIrrelevant | src/lib/api.ts:71 | removing purchases of other stock items does not change the reference rate, which every resolver returns for a non-empty id |
| Resolver.LaterPurchaseWins | src/lib/actions/sale.ts:68-78 | a purchase dated after every earlier purchase of its stock becomes the resolved rate |
| Resolver.AppendOtherStock | src/lib/actions/sale.ts:68-78 | appending a purchase of a different stock item leaves the resolved rate unchanged |
| Ledger.AddStock | src/lib/actions/stock.ts:18-34 | invalid fields fail with 'Invalid fields' and write nothing; otherwise exactly one new stock item holds the given name and type, and nothing else changes |
| Ledger.UpdateStock | src/lib/actions/stock.ts:36-48 | invalid fields fail; an id the store refuses as a path fails; an id naming no stored document fails; otherwise only the named document's name and type change, and its creation time and all other records stay |
| Ledger.DeleteStock | src/lib/actions/stock.ts:50-55 | fails exactly when the store refuses the id as a path; otherwise only the document the id names is removed (a missing one is a no-op), and purchases and sales keep their snapshots |
| Ledger.AddAgent | src/lib/actions/agent.ts:18-34 | invalid fields fail; otherwise exactly one new agent holds the name, and the phone as given or '' when it is absent |
| Ledger.UpdateAgent | src/lib/actions/agent.ts:36-48 | only the named document's name and phone (as given, or '' when absent) change; invalid fields, an id the store refuses and an id naming no stored document fail |
| Ledger.DeleteAgent | src/lib/actions/agent.ts:50-55 | fails exactly when the store refuses the id; otherwise only the document the id names is removed, and purchases keep their agent-name snapshots |
| Ledger.AddPurchase | src/lib/actions/purchase.ts:19-54 | invalid input fails; an agent or stock id the store refuses fails; a missing agent or stock item fails; none of these writes anything; otherwise exactly one purchase is appended, holding the input fields, both name snapshots, and totalAmount = kg × rate |
| Ledger.AddSale | src/lib/actions/sale.ts:19-63 | invalid input, a stock id the store refuses and a missing stock item fail; otherwise exactly one sale is appended with totalAmount = kg × saleRate, the stock name, the customer name as given or '' when absent, and the reference rate of that stock as purchaseRate |
| Ledger.ListPurchases | src/lib/actions/purchase.ts:10-17 | the action lists the purchases exactly as the GET route does: every stored purchase once, latest date first |
| Ledger.ListSales | src/lib/actions/sale.ts:10-17 | the listing holds exactly the stored sales, latest date first |
| Ledger.ListStocks | src/lib/actions/stock.ts:9-16 | every stock item appears once with its id, most recently created first |
| Ledger.ListAgents | src/lib/actions/agent.ts:9-16 | every agent appears once with its id, most recently created first |
| Ledger.MasterDataWritesPreserveWf | src/lib/actions/stock.ts:18-55 | every stock and agent write keeps the store well formed |
| Ledger.AddPurchasePreservesWf | src/lib/actions/purchase.ts:37-50 | a purchase write keeps the store well formed |
| Ledger.NewSaleWellFormed | src/lib/actions/sale.ts:46-60 | a sale built from accepted input holds its total, its bounds and, for a customer sale, a name |
| Ledger.AddSalePreservesWf | src/lib/actions/sale.ts:19-63 | a sale write keeps the store well formed |
| Ledger.AddThenDeleteStock | src/lib/actions/stock.ts:18-55 | deleting a freshly added stock item restores the store exactly |
| Ledger.AddThenDeleteAgent | src/lib/actions/agent.ts:18-55 | deleting a freshly added agent restores the store exactly |
| Ledger.UpdateStockIdempotent | src/lib/actions/stock.ts:36-48 | repeating a stock update has no further effect |
| Ledger.UpdateAgentIdempotent | src/lib/actions/agent.ts:36-48 | repeating an agent update has no further effect |
| Ledger.SnapshotSurvivesRename | src/lib/actions/sale.ts:34-53 | renaming a stock item after a sale leaves the sale's stockName as it was at write time |
| Ledger.CashSaleKeepsGivenName | src/lib/actions/sale.ts:51 | a cash sale given any customer name stores exactly that name |
| Routes.FailureResponse | src/app/api/purchases/route.ts:29-72 | validation and missing-record errors become 400 with the action's message; store failures become 500 with the handler's own message |
| Routes.PostStock | src/app/api/stock/route.ts:26-50 | 201 with the new id iff the fields are valid, writing what `AddStock` writes; otherwise 400 and no write |
| Routes.PutStock | src/app/api/stock/route.ts:52-77 | a falsy id gives 400 before validation; invalid fields give 400; an id naming no stored document gives 500; 200 iff the id names a stored document, writing what `UpdateStock` writes |
| Routes.DeleteStockRoute | src/app/api/stock/route.ts:79-97 | a falsy id gives 400; an id the store refuses gives 500; otherwise 200, and only the document the id names is removed |
| Routes.PostAgent | src/app/api/agents/route.ts:27-51 | 201 iff the fields are valid, storing the phone or ''; otherwise 400 and no write |
| Routes.PutAgent | src/app/api/agents/route.ts:53-78 | a falsy id gives 400 before validation; an id naming no stored agent gives 500; 200 iff valid and the id names a stored agent, writing name and phone (or '') |
| Routes.DeleteAgentRoute | src/app/api/agents/route.ts:80-98 | a falsy id gives 400; an id the store refuses gives 500; otherwise 200, and only the document the id names is removed |
| Routes.PostPurchase | src/app/api/purchases/route.ts:26-73 | invalid fields or a missing agent or stock item give 400 and no write; an id the store refuses gives 500; 201 exactly when the purchase action succeeds, with totalAmount = kg × rate |
| Routes.RouteSnapshotRate | src/app/api/sales/route.ts:50-60 | the handler's rate, with its `\|\| 0` fallback, is the reference rate |
| Routes.PostSale | src/app/api/sales/route.ts:26-84 | invalid fields and a missing stock item give 400; a stock id the store refuses gives 500; 201 iff valid with an existing stock, appending one sale with kg × saleRate, the customer name as given or '' and the reference rate as purchaseRate |
| Routes.PostSaleAgreesWithAddSale | src/app/api/sales/route.ts:56-60 | the sale handler, with its `\|\| 0` fallback, writes exactly the record the sale action writes, and fails exactly when it fails |
| Routes.SlashIdDeleteFails | src/app/api/stock/route.ts:89 | deleting by an id with one inner '/' (`a/b`) gives 500, for stock items and agents alike |
| Routes.SlashStockIdSaleFails | src/app/api/sales/route.ts:40 | a valid sale naming the stock id `a/b` gives 500, not the 400 of a missing stock item |
| Routes.SlashedIdDeletesSameStock | src/app/api/stock/route.ts:89 | a leading or trailing '/' on a plain id deletes the same stock item as the plain id |
| Routes.PostPurchaseAsWritten | src/app/api/purchases/route.ts:28-33 | as written, every JSON purchase body is refused with 400 'Invalid fields' and nothing is written |
| Routes.PostPurchaseCoerced | src/app/api/purchases/route.ts:28-68 | with the date coerced, a missing or unparsable date gives 400, and 201 comes exactly when the date parses and the purchase action succeeds on the parsed body, writing what it writes |
| Routes.JsonPurchaseRefused | src/app/api/purchases/route.ts:28-68 | a valid body with a parsable date, naming an existing agent and stock item, is refused as written and created once coerced |
| Routes.PostSaleAsWritten | src/app/api/sales/route.ts:28-33 | as written, every JSON sale body is refused with 400 'Invalid fields' and nothing is written |
| Routes.PostSaleCoerced | src/app/api/sales/route.ts:28-79 | with the date coerced, a missing or unparsable date gives 400, and 201 comes exactly when the date parses and the sale action succeeds on the parsed body, writing what it writes |
| Routes.JsonSaleRefused | src/app/api/sales/route.ts:28-79 | a valid cash-sale body with a parsable date, naming an existing stock item, is refused as written and created once coerced |
| Dashboard.GetDashboardSummary | src/lib/actions/dashboard.ts:7-31 | any failed read gives the one error message and no figures; otherwise the stock count is the number of stock items, and each total is the left fold from 0 of the amounts of its collection, so 0 on an empty one |
| Dashboard.StoreSummary | src/lib/actions/dashboard.ts:9-20 | the summary of a store whose reads succeed counts its stock items |
| Dashboard.SumAppend | src/lib/actions/dashboard.ts:10-12 | one more record raises the sum by exactly its amount |
| Dashboard.SumConcat | src/lib/actions/dashboard.ts:10-12 | the sum over two collections together is the sum of their sums |
| Dashboard.SumPermutation | src/lib/actions/dashboard.ts:10-17 | the sum does not depend on the order of the records |
| Dashboard.RemoveOne | src/lib/actions/dashboard.ts:10-17 | taking the same record out of two permutations of each other leaves permutations |
| Dashboard.SumWithout | src/lib/actions/dashboard.ts:10-12 | the sum is the sum without one record plus that record's amount |
| Dashboard.SumNonNegative | src/lib/actions/dashboard.ts:10-17 | a sum of amounts none of which is negative is not negative |
| Dashboard.TotalsNonNegative | src/lib/actions/dashboard.ts:10-17 | on a well-formed store both the purchase total and the sales total are non-negative |
| Dashboard.AddPurchaseRaisesPurchaseTotal | src/lib/actions/dashboard.ts:10-12 | a purchase write raises the purchase total by exactly kg × rate and changes no other figure |
| Dashboard.AddSaleRaisesSalesTotal | src/lib/actions/dashboard.ts:15-17 | a sale write raises the sales total by exactly kg × saleRate and changes no other figure |
| Dashboard.SaleAppendTotals | src/lib/actions/dashboard.ts:15-17 | appending one sale changes only the sales total, by its amount |
| Dashboard.StockWritesCount | src/lib/actions/dashboard.ts:19-20 | adding a stock item counts one more; deleting by an accepted id counts one fewer exactly when it names a stored item |
| Dashboard.AddStockCount | src/lib/actions/dashboard.ts:19-20 | a stock write adds exactly one stock item |
| Dashboard.DeleteStockCount | src/lib/actions/dashboard.ts:19-20 | a delete removes one stock item exactly when the id names a stored one |
| Dashboard.SummaryIgnoresOrder | src/lib/actions/dashboard.ts:9-17 | reading the collections in any order yields the same summary |
| Paths.Split | src/components/layout/header.tsx:7 | splitting on '/' gives at least one piece, and no piece contains '/' |
| Paths.JoinSplit | src/components/layout/header.tsx:7 | joining the pieces with '/' gives back the path |
| Paths.SplitJoin | src/components/layout/header.tsx:7 | splitting slash-free pieces joined with '/' gives back the same pieces |
| Paths.SplitWord | src/components/layout/header.tsx:7 | a slash-free word splits into itself alone |
| Paths.SplitWordSlash | src/components/layout/header.tsx:7 | splitting `w/t` gives `w` followed by the pieces of `t` |
| Paths.SplitSlashWord | src/components/layout/header.tsx:7 | splitting `p/w` gives the pieces of `p` followed by `w` |
| Paths.Components | src/lib/actions/stock.ts:44 | the components of a document id are its non-empty pieces, none holding '/' |
| Paths.DocRefOf | src/lib/actions/stock.ts:44 | the empty id and an id holding `//` are refused; an id accepted as a document of the collection names a plain key that is its only component |
| Paths.PlainIdNamesDocument | src/lib/actions/stock.ts:44 | a plain id, with or without a leading or trailing '/', names the document of that id |
| Paths.TwoComponentsRefused | src/app/api/stock/route.ts:89 | an id of two components (`a/b`) is refused |
| Paths.ThreeComponentsNested | src/app/api/stock/route.ts:89 | an id of three components (`a/b/c`) names a document of a sub-collection |
| Paths.DocumentIdForms | src/lib/actions/purchase.ts:28-29 | an id naming the document `k` is `k`, `/k`, `k/` or `/k/` and nothing else |
| Paths.InteriorPieces | src/lib/actions/sale.ts:28 | an id without `//` has no empty piece between two others |
| Paths.EmptyInteriorPiece | src/lib/actions/sale.ts:28 | an empty piece between two others makes the joined id hold `//` |
| Header.Upper | src/components/layout/header.tsx:10 | a lower-case ASCII letter becomes its upper-case letter; every other character is unchanged |
| Header.Capitalize | src/components/layout/header.tsx:12 | the first character is upper-cased and the rest is unchanged, so the length is kept |
| Header.Singular | src/components/layout/header.tsx:10 | the parent segment is capitalised with its last character dropped |
| Header.PageTitle | src/components/layout/header.tsx:6-13 | the title is missing (the source throws) exactly for the path "new"; every other title is non-empty |
| Header.TitleIsLastSegment | src/components/layout/header.tsx:7-12 | a path ending in a name other than "new" is titled by that name, capitalised |
| Header.TrailingSlashIsDashboard | src/components/layout/header.tsx:7 | the empty path and every path ending in '/' are titled "Dashboard" |
| Header.NewPageTitle | src/components/layout/header.tsx:8-11 | a path ending in "new", with at least two pieces, is titled "New " followed by the second piece singularised |
| Header.TitledNewPage | src/components/layout/header.tsx:8-11 | `/parent/new` is titled "New " followed by the singular of `parent` |
| Header.SplitNewPage | src/components/layout/header.tsx:7-9 | `/parent/new` splits into the empty piece, `parent` and "new" |
| Header.PurchaseCreationTitle | src/components/layout/header.tsx:8-11 | "/purchases/new" is titled "New Purchase" |
| Header.SaleCreationTitle | src/components/layout/header.tsx:8-11 | "/sales/new" is titled "New Sale" |

## Left out

- Firestore I/O, `revalidatePath`, the admin SDK set-up and the authentication flow are not modelled.
  The store is a value passed in and returned.
- Document ids and the clock (`serverTimestamp()`, `new Date().toISOString()`) are parameters.
  The action stores a server timestamp and the route stores an ISO string; both are one integer here.
- The GET route handlers and listing actions are modelled as their result order only (`Ledger.ListPurchases`,
  `Ledger.ListSales`, `Ledger.ListStocks`, `Ledger.ListAgents`, `Resolver.PurchaseListing`).
  Their 500 replies on a failed read are not modelled.
- zod coercion (`z.coerce.number()` on strings, `NaN`) is not modelled. Inputs are already numbers,
  given as reals.
- Schemas.ParsePurchase, Schemas.ParseSale: `date` is taken as an already-parsed date, as the server
  actions receive it from the forms. For the route handlers, only the date field of a JSON body is
  modelled as JSON text (`Routes.JsonDate`); the other fields are taken as already decoded.
- Routes.PostPurchase, Routes.PostSale: these model the handlers as if their body's date were already a
  date. As written, a JSON body can never carry one, so the handlers never reach 201 (see Findings).
  The model's 201 paths are the corrected behaviour, reached through `Routes.PostPurchaseCoerced` and
  `Routes.PostSaleCoerced`. How date text is parsed (`new Date(text)`) is the parameter `parse`.
- Resolver.QueryLatest: ties between purchases of the same date are broken by write order (the earliest
  written wins). The store breaks them by document id, descending. Document ids are not modelled as
  ordered, so the sale snapshot and the `getLatestPurchaseRate` answer may name a different purchase of
  the same date than the store would. The listings (`Ledger.ListPurchases`, `Ledger.ListSales`) order
  ties the same modelled way.
- Paths.DocRefOf: the ids `.` and `..`, ids of the form `__…__` that the store reserves, and the
  store's limits on id length are not modelled. Such ids are treated like any other plain id.
- Schemas: the e-mail format check of the login schema is not modelled. Only the password rule is.
- Resolver.OrZero: `rate || 0` also maps `NaN` and a missing rate to 0. Rates are reals here, so only 0
  is falsy and the fallback is the identity.
- Header.Upper: `toUpperCase` is modelled for ASCII letters only. Locale rules and characters that
  expand when upper-cased are not.
- The rest of the repository is not part of this model: the React pages and forms, the sales-analysis
  pages and their AI flows, `Intl` number formatting, and the generic `fetchAPI` wrapper of
  `src/lib/api.ts`.
- Cascades do not exist in the source: deleting a stock item or an agent leaves purchases and sales
  that reference it, with their name snapshots. The model keeps this.

## Findings

| source | as written | input that shows it | evidently intended | confidence | as-written member | corrected member |
|---|---|---|---|---|---|---|
| src/app/api/purchases/route.ts:28-29 | the body comes from `request.json()` and is checked by a schema whose `date` is `z.date()`, which accepts only a date object | any JSON purchase body, e.g. `{"date":"2024-05-01T00:00:00.000Z","agentId":"a1","stockId":"s1","kg":1,"bags":0,"rate":1}` with agent `a1` and stock item `s1` stored: the reply is 400 'Invalid fields' | the date text is coerced (`z.coerce.date()`), so a valid body creates the purchase with 201 | high for the refusal; not executed | Routes.PostPurchaseAsWritten | Routes.PostPurchaseCoerced |
| src/app/api/sales/route.ts:28-29 | the same `request.json()` body checked by a schema whose `date` is `z.date()` | any JSON sale body, e.g. a cash sale of stored stock item `s1` with `"date":"2024-05-01T00:00:00.000Z"`: the reply is 400 'Invalid fields' | the date text is coerced, so a valid body creates the sale with 201 | high for the refusal; not executed | Routes.PostSaleAsWritten | Routes.PostSaleCoerced |
