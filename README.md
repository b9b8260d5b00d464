# Order service: catalog, order lifecycle and revenue analytics

This project models the business rules of a small order-management HTTP service and proves properties about them in Dafny.
The service holds one in-memory dataset with a product collection and an order collection. It has three groups of routes:

- **Catalog** (`catalog.dfy`, module `Catalog`): list the products, or get one by id. Lookup by id is a linear first-match search (`FindProduct`, built on the generic `Seqs.Find`). The order and analytics routes use the same search.
- **Order lifecycle** (`orders.dfy`, module `Orders`):
  - create an order: validate, look the product up, check stock, take the stock, append an order with status `placed`;
  - cancel an order: a soft delete that is allowed only on the day the order was created, and that puts the stock back;
  - advance an order's status: `placed → shipped → delivered`, with no skipping.

  Each handler is a function from the dataset before the request to the answer and the dataset after it (`CreateOrder`, `CancelOrder`, `ChangeStatus`). The class `Store` holds the shared collections as fields. Its methods update those fields in place and are proved equal to the functions. `Apply` and `Run` serve a sequence of requests, and the lemmas follow the dataset across any such sequence: stock never goes negative, stock is conserved, cancellation happens once, and statuses only move forward.
- **Analytics** (`analytics.dfy`, module `Analytics`):
  - all orders; the cancelled orders; the shipped orders;
  - revenue of one product: Σ quantity × current price over its non-cancelled orders;
  - overall revenue: the same sum over all non-cancelled orders, where an order whose product does not resolve adds nothing.

  These are pure functions, plus one method that changes nothing. So none of them can modify the dataset or persist it.

Shared values are in `domain.dfy`. `seqs.dfy` models `Array.prototype.find` and `Array.prototype.filter`. `scenarios.dfy` holds worked examples on small datasets.

Prices are integer cents. Dates are `YYYY-MM-DD` strings that are only compared for equality. The current date is the `today` parameter. Request body fields are `Option` values: for a numeric field, `None` means absent or null. A position in a sequence stands for the object reference that `find` returns.

Two points of the code's behaviour that are easy to misread, modelled as the code has them:

- `DELETE /orders/:orderId` accepts any order that is not cancelled, `delivered` included, as long as it is the same day. So `delivered` is not terminal for cancellation. `StatusStep` allows `delivered → cancelled`, and `CancelOrder` states it.
- Order ids are `orders.length + 1`. Uniqueness is not claimed. `RunKeepsSequentialIds` proves only that ids which start out as 1..n stay 1..n.

## Model

| member | source | states |
|---|---|---|
| `Catalog.FindProduct` | src/routes/products.routes.js:16 | Returns the position of the first product with the id, with no earlier product having it; returns None exactly when no product has the id |
| `Catalog.ListProducts` | src/routes/products.routes.js:6-11 | Lists the product collection unchanged and in order, with `count` equal to its length |
| `Catalog.GetProduct` | src/routes/products.routes.js:14-23 | A found product has the requested id and is the first such product in sequence order; not-found happens exactly when no product has the id |
| `Catalog.FindProductReadsOnlyIds` | src/routes/products.routes.js:16 | Lookup depends only on the ids, so changing stock never changes which product an id resolves to |
| `Catalog.FindProductOfMember` | src/routes/products.routes.js:16 | With distinct ids, looking up a catalog product's id finds that product |
| `Orders.NextStatus` | src/routes/orders.routes.js:179-182 | The transition table is defined exactly for `placed` and `shipped`, and each one moves one rank forward, never to `cancelled` |
| `Orders.StatusName` | src/routes/orders.routes.js:179-184 | The strings `placed`, `shipped`, `delivered` and `cancelled` that the code stores in `status` and compares with the request's `status` |
| `Orders.StatusNamesDistinct` | src/routes/orders.routes.js:184 | Distinct statuses have distinct names, so the string comparison with the next status's name accepts exactly that one status |
| `Orders.StepwiseNeverMovesBack` | src/routes/orders.routes.js:171-191 | Along a status history where each change is allowed, the rank never decreases, `placed` is never re-entered and `cancelled` is never left |
| `Orders.DeliveredOnlyAfterShipped` | src/routes/orders.routes.js:178-188 | A history that starts `placed` and reaches `delivered` passes through `shipped` |
| `Orders.FindOrder` | src/routes/orders.routes.js:108 | Returns the position of the first order with the id; returns None exactly when no order has it |
| `Orders.FindOrderReadsOnlyIds` | src/routes/orders.routes.js:165 | Order lookup depends only on the ids, so a status change never changes which order an id finds |
| `Orders.Missing` | src/routes/orders.routes.js:25 | The falsy test `!v` on a numeric body field: true exactly when the field is absent, null or 0 |
| `Orders.Given` | src/routes/orders.routes.js:161 | The truthy test on the `status` body field: present and not the empty string |
| `Orders.CreateOrder` | src/routes/orders.routes.js:21-73 | A missing or zero field gives a validation error. A negative quantity gives a quantity error. An unknown product gives not-found. A quantity above stock (stock 0 included) gives insufficient stock. Every error leaves the dataset unchanged. Success happens exactly when the input is valid and in stock: it appends one `placed` order with id `|orders|+1`, `totalAmount = price × quantity` and today's date; it lowers that product's stock by the quantity to a value ≥ 0; everything else is unchanged |
| `Orders.Restocked` | src/routes/orders.routes.js:126-129 | Adds the quantity to the stock of the first product with the id, if there is one; nothing else changes |
| `Orders.CancelOrder` | src/routes/orders.routes.js:106-139 | An unknown id gives not-found. An already-cancelled order gives its own error. An order from another day gives the window error. Every error leaves the dataset unchanged. Success happens exactly for a non-cancelled order created today, whatever its status: the order becomes `cancelled`, its quantity goes back to the first matching product when there is one, and nothing else changes |
| `Orders.ChangeStatus` | src/routes/orders.routes.js:157-198 | An absent or empty status gives status-required. An unknown order gives not-found. A `cancelled` or `delivered` order gives the terminal error. Any other requested name gives the skipped-status error, carrying the current status and the expected next one. Success happens exactly when the requested name is the next status's name, so the only changes are `placed→shipped` and `shipped→delivered`. Every failure leaves the dataset unchanged |
| `Orders.Store.constructor` | src/index.js:14 | The store starts with the loaded dataset as its collections, and its invariant (non-negative stock, positive quantities) holds exactly when that dataset satisfies it |
| `Orders.Store.Create` | src/routes/orders.routes.js:21-73 | The in-place update (stock decrement, push) gives the answer and new collections of `CreateOrder`, and keeps stock non-negative |
| `Orders.Store.List` | src/routes/orders.routes.js:82-87 | Returns every stored order, in order, with `count` equal to their number; changes nothing |
| `Orders.Store.Cancel` | src/routes/orders.routes.js:106-139 | The in-place update (stock increment, status write) gives the answer and new collections of `CancelOrder`, and keeps stock non-negative |
| `Orders.Store.AdvanceStatus` | src/routes/orders.routes.js:157-198 | The in-place status write gives the answer and new collections of `ChangeStatus` |
| `Orders.ApplyKeepsConsistent` | src/routes/orders.routes.js:41-63 | No request makes a stock negative or stores a non-positive quantity |
| `Orders.RunKeepsConsistent` | src/routes/orders.routes.js:41-63 | The same holds after any sequence of requests |
| `Orders.CommittedAppend` | src/routes/orders.routes.js:66 | Appending an order adds its share to the units held by live orders |
| `Orders.CommittedUpdate` | src/routes/orders.routes.js:132 | Rewriting one order replaces its old share of held units by its new share |
| `Orders.CreateConservesStock` | src/routes/orders.routes.js:50-66 | For every resolvable product, stock plus units held by live orders is unchanged by create |
| `Orders.CancelConservesStock` | src/routes/orders.routes.js:126-132 | The same for cancel: the units move back to the shelf exactly once |
| `Orders.ChangeStatusConservesStock` | src/routes/orders.routes.js:190-191 | The same for a status change, which moves no units |
| `Orders.ApplyConservesStock` | src/routes/orders.routes.js:21-198 | The same for any single request |
| `Orders.RunConservesStock` | src/routes/orders.routes.js:21-198 | The same after any sequence of requests |
| `Orders.CancelNotRepeatable` | src/routes/orders.routes.js:114-117 | After a successful cancel, a second cancel of the same id (on any day) fails with the already-cancelled error and changes nothing, so stock is never restored twice |
| `Orders.RunKeepsSequentialIds` | src/routes/orders.routes.js:54 | If the stored ids are 1..n, they remain 1..n after any requests |
| `Orders.SequentialIdsLookup` | src/routes/orders.routes.js:108 | With ids 1..n, the order with id `i` is at position `i-1`, and ids outside 1..n are not found |
| `Orders.StatusHistory` | src/routes/orders.routes.js:132 | One order's status before each request and after the last; it starts at the stored status |
| `Orders.HistoryIsStepwise` | src/routes/orders.routes.js:115-191 | Under any requests, every change of an existing order's status is none, the next status, or cancellation of a non-cancelled order |
| `Orders.StatusHistoryFollowsRun` | src/routes/orders.routes.js:132 | Entry `i` of an order's history is its status in the dataset left by the first `i` requests, and the order is still stored there |
| `Seqs.Find` | src/routes/products.routes.js:16 | Returns the position of the first element that matches, with no earlier element matching; returns None exactly when nothing matches |
| `Seqs.Filter` | src/routes/analytics.routes.js:44 | The result is no longer than the input; it holds only input elements that pass the test, and every passing element |
| `Seqs.FilterIsSubsequence` | src/routes/analytics.routes.js:44 | The filter keeps relative order |
| `Seqs.FilterCount` | src/routes/analytics.routes.js:44 | The filter keeps each passing element as many times as it occurs, and no failing one |
| `Seqs.FilterMultiset` | src/routes/analytics.routes.js:59 | FilterCount for every element of the input |
| `Seqs.FilterAppend` | src/routes/analytics.routes.js:118 | Filtering an extended sequence extends the filtered one by the new element when it passes |
| `Seqs.FilterSplit` | src/routes/analytics.routes.js:118 | Complementary filters split the input: their lengths add up to its length |
| `Analytics.AllOrders` | src/routes/analytics.routes.js:24-35 | The list built by the copying loop equals the stored orders, in order, and `count` is its length |
| `Analytics.CancelledOrders` | src/routes/analytics.routes.js:43-50 | Exactly the cancelled orders, each as often as stored, in stored relative order, with a matching count |
| `Analytics.ShippedOrders` | src/routes/analytics.routes.js:58-65 | Exactly the shipped orders, each as often as stored, in stored relative order, with a matching count |
| `Analytics.RevenueSum` | src/routes/analytics.routes.js:94-96 | The `reduce` of quantity × price over the selected orders, characterised by `RevenueIsPriceTimesCommitted` |
| `Analytics.RevenueIsPriceTimesCommitted` | src/routes/analytics.routes.js:89-96 | Σ quantity × price over a product's live orders equals the price times the units those orders hold |
| `Analytics.LiveCount` | src/routes/analytics.routes.js:89-91 | The number of non-cancelled orders of a product: at most the number of orders, and 0 exactly when the product has no such order |
| `Analytics.LiveOrdersAreLiveCount` | src/routes/analytics.routes.js:89-91 | Selecting a product's non-cancelled orders keeps exactly `LiveCount` of them |
| `Analytics.ProductTotalRevenue` | src/routes/analytics.routes.js:78-104 | An unknown product gives not-found. Otherwise it reports the product's id and name and `totalRevenue = price × Σ quantity` over its non-cancelled orders. `orderCount` is the number of those orders (`LiveCount`); it is 0 exactly when there are none, and then the revenue is 0 |
| `Analytics.ResolvedRevenue` | src/routes/analytics.routes.js:121-127 | The `reduce` of the overall report: each order adds quantity × the price of the first product with its id, or nothing when none has it; the sum is 0 when no order resolves |
| `Analytics.OverallRevenueReport` | src/routes/analytics.routes.js:116-133 | `orderCount` counts all non-cancelled orders, including unresolved ones; with the cancelled count it adds up to all orders |
| `Analytics.ResolvedRevenueAppend` | src/routes/analytics.routes.js:121-127 | The overall sum over extended orders is the old sum plus the new order's contribution |
| `Analytics.OverallRevenueSkipsUnresolved` | src/routes/analytics.routes.js:121-131 | An order whose product does not resolve adds nothing to `totalRevenue`, but adds one to `orderCount` when not cancelled |
| `Analytics.OverallRevenueAddsResolved` | src/routes/analytics.routes.js:118-131 | A non-cancelled order whose product resolves adds its quantity × the price of the FIRST product with that id to `totalRevenue`, and one to `orderCount`, with or without distinct ids |
| `Analytics.OverallRevenueIgnoresCancelled` | src/routes/analytics.routes.js:118 | A cancelled order changes neither `totalRevenue` nor `orderCount` |
| `Analytics.RevenueAdditivity` | src/routes/analytics.routes.js:89-127 | With distinct product ids, overall `totalRevenue` equals the sum of the per-product `totalRevenue` over the catalog |
| `Scenarios.OrderReducesStock` | src/routes/orders.routes.js:50-66 | Ordering 3 at price 10 from stock 5 creates an order of 30 and leaves 2 |
| `Scenarios.OrderBeyondStockFails` | src/routes/orders.routes.js:45-47 | Ordering 5 from stock 2 fails with insufficient stock and changes nothing |
| `Scenarios.SameDayCancelRestoresStock` | src/routes/orders.routes.js:126-132 | A same-day cancel of an order of 2 cancels it and restores 2 units |
| `Scenarios.SkippingShippedFails` | src/routes/orders.routes.js:184-188 | Requesting `delivered` for a `placed` order fails and changes nothing |
| `Scenarios.NoLiveOrdersNoRevenue` | src/routes/analytics.routes.js:89-103 | A product with only cancelled orders reports revenue 0 from 0 orders |

## Left out

- Persistence: `req.saveDb()`, the `db.json` read at start-up, and the Express wiring in `src/index.js` are not modelled. The `Store` constructor stands for loading the dataset; saving is a no-op.
- The clock: `new Date().toISOString().split('T')[0]` becomes the `today` parameter.
- `parseInt` of route parameters and loose typing are not modelled. Ids are integers after parsing, so a string `productId` failing `===` is not represented. A non-integer or `NaN` quantity is not represented either.
- A `status` in the request body that is a non-string value is not modelled. Any string is accepted, and the model compares it with the next status's name, as the code does.
- HTTP status codes, message texts and JSON shapes: each distinct error response is an `Error` constructor, and each success is a record.
- Floating-point prices: prices are integer cents, so sums are exact. `RevenueSum` and `ResolvedRevenue` fold from the right (the first order's term plus the sum of the rest) while `reduce` folds from the left; integer addition is associative with identity 0, so both give the same value.
- Concurrency: requests are served one at a time (`Run`), as the code assumes.
- Aliasing of the stored objects: products and orders are values in sequences, and an in-place update of an object becomes an update of its position. The handlers never share an object between two places.
