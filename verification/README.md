# Storefront store: a Dafny model

This project models the in-memory store behind a small retail storefront
API (`server.js`). The store holds a product catalog, an order ledger and
the next order id. Its handlers:

- list, search, add, edit and delete products;
- place orders against stock;
- list orders and change their status;
- compute store statistics.

The HTTP layer is stripped away. Each handler that changes state is a
method of the class `StoreState.Store`. It returns a `Result` where the
server sends a status code and a JSON envelope. Each read-only query is a
function over the catalog or the ledger.

Module layout:

- `wrappers.dfy`: `Option` and `Result`.
- `sequences.dfy`: the JavaScript array and string operations the handlers
  use (`findIndex`, `filter`, `slice(0, n)`, `reverse`, `includes`), and
  the subsequence relation.
- `records.dfy`: products, order lines, orders, errors, the five order
  statuses and the catalog the server starts with.
- `catalog.dfy`: lookup by id, the listing filters, the search, and the
  values that adding, editing and deleting a product produce.
- `placement.dfy`: order placement as specification functions.
  `ValidateLines` is the validation pass, `ApplyDecrements` the stock pass.
  The file also holds their lemmas.
- `ledger.dfy`: order lookup, the order listing, status changes, and the
  ledger invariant.
- `stats.dfy`: revenue, per-status and per-category counts, and products
  running low.
- `store.dfy`: the `Store` class and its handler methods.

Placement validates every line before any stock changes. So a refused
order leaves the catalog, the ledger and the id counter as they were
(`Store.PlaceOrder`, `ensures r.Err? ==> unchanged(this)`). An accepted
order lowers stock, takes the counter's id and is appended as `pending`.
The class invariant `LedgerValid` keeps three facts:

- order ids strictly increase along the ledger;
- every id lies below the counter, so no id is handed out twice;
- every order's total is the sum of its line totals.

Five behaviours of the code are easy to miss. The model keeps each of
them as the code has it:

- **Stock can go negative.** Placement checks each line against the
  untouched stock, so several lines for one product are never checked
  together. The sign of a quantity is never checked either. The model proves no-oversell only
  for orders whose lines name distinct products
  (`NoOversellWithDistinctIds`). It shows two counterexamples on the seed
  catalog. Two lines of 30 against a stock of 50 leave the stock at -10
  (`OversellWithRepeatedId`). A line of -5 is accepted and raises the
  stock (`NegativeQuantityAccepted`).
- **Product ids can repeat.** Every handler looks products up by id, yet
  a new product gets `products.length + 1`. Take a catalog whose ids are
  1..n, such as the seed catalog. Deleting any product but the last and
  then adding one makes the new product repeat id n, which the last
  product still holds (`AddAfterDeleteReusesId`). Lookups then find the
  first product with the id. From other catalogs a delete need not lead
  to a repeat.
- **Cancelling does not restock.** The code never restocks a cancelled
  order, and the model keeps that behaviour.
- **Edits can set any stock.** A product edit may set any stock, negative
  included. So the catalog carries no stock invariant.
- **A limit keeps the oldest orders.** The order listing takes
  `slice(0, limit)` of the matching orders before it reverses them. So
  `?limit=n` returns the n oldest matches, newest of those first, and not
  the n newest orders. The model keeps that order of the two steps
  (`ListOrders`); `ListOrdersNewestFirst` proves that the result runs
  newest first.

## Model

| member | source | states |
|---|---|---|
| `Catalog.ProductIndex` | server.js:173 | the position of the first product with the id; None exactly when no product has it |
| `Catalog.FindProduct` | server.js:123-138 | the first product with the id, a member of the catalog; None exactly when the id is unknown |
| `Catalog.SameIdsSameIndex` | server.js:267 | where a product is found depends only on the ids, so lookups after stock changes find the same positions |
| `Catalog.BySearch` | server.js:88-93 | a subsequence holding exactly the products whose name or description contains the text, each as many times as in the catalog, or everything when no text is given |
| `Catalog.ByCategory` | server.js:96-100 | a subsequence holding exactly the products of the given category, each as many times as in the catalog, or everything when none is given |
| `Catalog.ByMinPrice` | server.js:103-107 | a subsequence holding exactly the products priced at least the bound, each as many times as in the catalog, when one is given |
| `Catalog.ByMaxPrice` | server.js:109-113 | a subsequence holding exactly the products priced at most the bound, each as many times as in the catalog, when one is given |
| `Catalog.FilterProducts` | server.js:83-113 | the product listing is a subsequence of the catalog in catalog order, a product is in it exactly when it meets every supplied criterion, and as many times as in the catalog |
| `Catalog.Search` | server.js:393-407 | an empty query is refused; otherwise a subsequence of the catalog holding exactly the products whose name, description or category contains the query, each as many times as in the catalog |
| `Catalog.NewProduct` | server.js:141-159 | refused exactly when name, description or price is missing or falsy; otherwise id = catalog length + 1, the sent name, description and price, the sent emoji or the default 🛍️, the sent stock or 0, and the sent category or the default عام |
| `Catalog.Merge` | server.js:184-192 | the edited product keeps its id; name, description, emoji and category take the sent value when it is non-empty and keep the old one otherwise; price takes a sent non-zero price; stock takes any sent stock |
| `Catalog.MergeIdempotent` | server.js:184-192 | editing twice with the same fields equals editing once; editing with no fields changes nothing |
| `Catalog.RemoveAt` | server.js:213 | splice(k, 1) keeps the products before k and shifts those after it, removing exactly one occurrence of the k-th product |
| `Catalog.AddKeepsIdsSequential` | server.js:152 | while nothing has been deleted, adding keeps the ids 1..n, hence distinct |
| `Catalog.AddAfterDeleteReusesId` | server.js:152 | after deleting any product but the last from ids 1..n, the next product added gets id n, which the last product still has |
| `Placement.CheckLine` | server.js:237-262 | a line passes exactly when its product exists and has stock at least the quantity, and then becomes that product's id, name and price with total price * quantity; an unknown product fails as not found with the line's id, too little stock as insufficient stock with the product's name and stock |
| `Placement.ValidateLines` | server.js:236-263 | a passed validation yields one line per requested line; a failed one reports the error of some requested line |
| `Placement.ValidateLinesOk` | server.js:236-263 | validation passes exactly when every line names an existing product whose stock covers the line's quantity |
| `Placement.ValidatedLines` | server.js:253-262 | after validation the k-th stored line copies the k-th request's product (id, name, current price), keeps its quantity and has total price * quantity |
| `Placement.PlacedLinesPriced` | server.js:253-261 | every stored line totals price times quantity |
| `Placement.ValidateLinesErr` | server.js:236-251 | a refused order reports the error of the first line that fails, all lines before it having passed |
| `Placement.ValidatePrefixErr` | server.js:239-250 | once a prefix of the lines fails, the whole order fails with the same error |
| `Placement.Decrement` | server.js:267-268 | one decrement step keeps the catalog's length |
| `Placement.ApplyDecrements` | server.js:266-269 | the decrement pass keeps the catalog's length |
| `Placement.DecrementsEffect` | server.js:266-269 | the first product with each id loses the sum of the quantities requested for that id; every other product and field is untouched |
| `Placement.DecrementsStep` | server.js:266-268 | the decrement pass over one more line is one more decrement step, in request order |
| `Placement.DecrementFindsProduct` | server.js:267-268 | after validation, every line still finds its product when its decrement comes, because decrements never change ids |
| `Placement.QtyForDistinct` | server.js:266-268 | with distinct line ids, the quantity taken from a product is that of its one line, or 0 |
| `Placement.NoOversellWithDistinctIds` | server.js:246-268 | when the lines name distinct products, stock that was non-negative stays non-negative |
| `Placement.OversellWithRepeatedId` | server.js:246-268 | two lines of 30 for the product with stock 50 pass validation and leave stock -10 |
| `Placement.NegativeQuantityAccepted` | server.js:246-268 | a line of -5 passes validation, totals -14000 and raises stock from 5 to 10 |
| `Placement.TwoHeadphonesScenario` | server.js:253-268 | two headphones give one line {id 3, price 250, quantity 2, total 500}, a total of 500, and stock 48 |
| `Placement.RepeatedLine` | server.js:246-268 | two copies of an available line both pass validation and together take twice the quantity from the product |
| `Placement.FailingScenarios` | server.js:239-250 | 51 headphones fail with insufficient stock (50 available); product 999 fails as not found |
| `Ledger.OrderIndex` | server.js:332 | the position of the first order with the id; None exactly when no order has it |
| `Ledger.FindOrder` | server.js:312-327 | the order with the id, a member of the ledger; None exactly when the id is unknown |
| `Ledger.IncreasingIdsUnique` | server.js:273 | in a ledger with increasing ids, looking up an order's id finds exactly that order |
| `Ledger.AppendKeepsLedgerValid` | server.js:272-282 | appending a well-formed order with the next id and advancing the counter keeps ids increasing, below the counter, and orders well formed |
| `Ledger.StatusChangeKeepsLedgerValid` | server.js:351-352 | changing one order to a valid status keeps the ledger invariant |
| `Ledger.WithStatus` | server.js:351-352 | a status change sets status and update time and keeps id, lines, total, customer data and creation time |
| `Ledger.ByStatus` | server.js:296-298 | a subsequence of the ledger holding exactly the orders with the given status, each as many times as in the ledger, or all orders when none is given |
| `Ledger.ListOrders` | server.js:292-307 | the listing is the first slice(0, limit) of the matching orders, in reverse order |
| `Ledger.SubseqKeepsIdsIncreasing` | server.js:296-298 | filtering a ledger keeps its ids increasing |
| `Ledger.ListOrdersNewestFirst` | server.js:306 | over a ledger with increasing ids, the listing's ids strictly decrease (newest first) |
| `Stats.BumpTotal` | server.js:368-371 | one increment adds 1 to the sum of the counts |
| `Stats.BumpLookup` | server.js:368-371 | one increment adds 1 to its key's count and to no other count |
| `Stats.BumpKeys` | server.js:368-371 | one increment keeps the keys, or adds its key last when it was new |
| `Stats.CountBy` | server.js:368-376 | the counts sum to the number of items counted, each key's count is its number of occurrences, each key appears once, and the keys are exactly the items counted |
| `Stats.Revenue` | server.js:365 | the sum of all order totals, cancelled orders included, is never negative while no order total is, and is the total of a lone order |
| `Stats.RevenueAfterChange` | server.js:365 | placing an order raises revenue by its total; a change that keeps an order's total keeps revenue |
| `Stats.RevenueReplace` | server.js:365 | replacing an order by one with the same total keeps revenue |
| `Stats.LowStock` | server.js:387 | a subsequence of the catalog holding exactly the products with stock below 5, each as many times as in the catalog |
| `Stats.ComputeStats` | server.js:362-388 | product and order totals are the lengths, revenue is the sum of order totals, per-status and per-category counts sum to the lengths and count occurrences, low stock holds exactly the products with stock < 5, as many times as in the catalog |
| `StoreState.Store.constructor` | server.js:15-73 | the store starts with the seed catalog, no orders and next order id 1, and satisfies the ledger invariant |
| `StoreState.Store.PlaceOrder` | server.js:222-289 | no items gives EmptyOrder and a failed line gives its error, both with nothing changed; success decrements as ApplyDecrements, appends one pending order with id = old counter, the validated lines and their sum, and advances the counter by 1 |
| `StoreState.Store.RecordOrder` | server.js:271-282 | the new order takes the old counter as id, is pending with the given lines, total, customer data and time, is appended to the ledger, and the counter advances by 1 with the ledger invariant kept |
| `StoreState.Store.CheckItems` | server.js:232-263 | the validation loop computes exactly ValidateLines and, on success, a total equal to the sum of the line totals |
| `StoreState.Store.DecrementStock` | server.js:265-269 | the decrement loop leaves the catalog equal to ApplyDecrements of the old catalog |
| `StoreState.Store.UpdateOrderStatus` | server.js:330-359 | unknown id gives OrderNotFound, then an invalid status gives InvalidStatus, both with nothing changed; otherwise only that order's status and update time change |
| `StoreState.Store.AddProduct` | server.js:141-168 | appends exactly the NewProduct result, or changes nothing when it is refused; the ledger invariant is kept |
| `StoreState.Store.UpdateProduct` | server.js:171-199 | an unknown id gives ProductNotFound with nothing changed; otherwise only the first product with the id is replaced by the merge; the ledger invariant is kept |
| `StoreState.Store.DeleteProduct` | server.js:202-219 | an unknown id gives ProductNotFound with nothing changed; otherwise exactly the first product with the id is removed and the rest keep their order; the ledger invariant is kept |
| `StoreState.Store.Statistics` | server.js:362-390 | the per-status counts sum to the number of orders, the per-category counts to the number of products, and revenue is the sum of order totals |

## Left out

- The HTTP layer is not modelled: Express, CORS, static files, the `/`
  page, the 404 and 500 middleware, `app.listen` and its console output,
  and the `{ success, data, message, total }` envelopes. Handlers return a
  `Result`, and `Records.Kind` maps each error to the 400 or 404 class.
- Prices are whole numbers. `parseFloat` of prices and the rounded
  `averageOrderValue` are floating point and not modelled. JavaScript
  numbers are unbounded integers here, so precision loss above 2^53 is not
  modelled.
- `parseInt` of path and query parameters is not modelled. Ids, limits
  and price bounds arrive already parsed: an `int`, or an `Option<int>`
  for optional query values. A non-numeric parameter that yields `NaN`
  is not modelled. Neither are non-numeric ids or quantities in a request
  body.
- Catalog.Merge, Catalog.NewProduct: a stock in the request body is an
  `Option<int>`, so the `parseInt(stock)` of server.js:157 and
  server.js:190 is not modelled. A fractional stock is truncated by the
  server; the model has only whole stocks. An edit whose stock is `null`,
  `""` or a non-numeric string stores `NaN`. Such a product then passes
  every `stock < quantity` check of server.js:246, and its stock stays
  `NaN` after the decrement of server.js:268, so it accepts orders of any
  size. The model has no `NaN` stock and cannot show this. (An add turns
  `NaN` into 0 through `|| 0`, which the model's default of 0 covers.)
- JavaScript truthiness is modelled explicitly. An empty string is a
  missing text field, and `None` a missing number. A price of 0 counts
  as missing, as `!price` makes it. A missing `items` list is the empty
  list.
- `toLowerCase` in the listing's text filter and in the search is not
  modelled. Matching is an exact-case substring test, so case-insensitive
  matches are not captured.
- The sort of `/api/search` is left out. Its comparator never returns 0,
  so its result depends on the engine's sort algorithm. `Search` returns
  the matches in catalog order, as the endpoint does when no sort is
  asked for.
- Timestamps come from the clock. They are the `now` parameter.
- StoreState.Store.PlaceOrder: the server reads the clock twice, once for
  `createdAt` and once for `updatedAt`, so the two can differ by a
  millisecond. The model gives both the one `now`.
- Placement.ValidateLines: quantities are integers. A fractional JSON
  quantity such as 1.5 is accepted by the server, is compared with stock
  and multiplied into the total as a fraction; the model has no such
  quantity.
- Catalog.NewProduct, Catalog.Merge: a price is a number here. The server
  tests the raw body value, so a price sent as the string "0" is truthy
  and passes the check of lines 144 and 188, then parses to 0. The model
  treats price 0 as missing, which is what a numeric 0 does.
- Stats.CountBy: a count object inherits properties such as
  `constructor` and `toString`. A status or category with such a name
  starts from the inherited value, not from 0, and its count is not a
  number. The model starts every key from 0.
- `customerInfo` is an arbitrary JSON value passed through unchanged. It
  is modelled as a `map<string, string>`, empty when none is given.
- JavaScript enumerates integer-like keys of a count object first, and
  treats a key such as `__proto__` specially. Neither is modelled: keys
  keep insertion order.
- Concurrency is not modelled. The server is single-threaded and nothing
  in it coordinates threads.
