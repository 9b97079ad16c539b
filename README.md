# Order settlement and revenue analytics of an e-commerce admin backend

This project models two parts of a multi-store e-commerce admin backend.

- **The payment webhook.** It verifies the processor's signature. On a `checkout.session.completed` event it marks the order named in the session's metadata as paid, stores the customer's address string and phone, and archives every product that order references.
- **The dashboard actions.** There are four of them:
  - the total revenue of a store's paid orders;
  - the same revenue bucketed into a fixed twelve-month Jan..Dec series;
  - the count of paid orders;
  - the count of products still in stock.

The database is an in-memory `Snapshot` of two tables.

- Orders carry an id, a store id, a paid flag, a creation date, an address, a phone and the product ids of their line items.
- Products carry an id, a store id, an exact price in minor currency units and an archived flag.
- `WellFormed` states what the database guarantees. Primary keys are unique, and every line item references an existing product, as the checkout's `connect` ensures.

Modules:

- `Store` holds the tables and the query filters they share.
- `TotalRevenue` is pure. The two nested `reduce` calls are left folds.
- `GraphRevenue` is imperative. It has a method with the month dictionary, the nested accumulation loop and the in-place fill of a twelve-entry array, proved against the `MonthRevenue` specification function.
- `SalesCount` and `StockCount` are pure recursive counts.
- `Webhook` holds two things:
  - the handler as the pure transition `Settle` and the pure `AddressString`;
  - the class `Database`, whose `HandleWebhook` method updates the two tables in place with exactly the effect `Settle` describes.

The handler computes the address string before it looks at the event type, and so does the model.

JavaScript's three kinds of missing value matter in the address string. A component is `Null`, `Undefined` or a `Value`:

- `filter((c) => c !== null)` removes only `Null`;
- `join` renders `Undefined` as the empty string, so a missing address yields `", , , , , "`.

A failed `order.update` (no order id in the metadata, or no order with that id) throws out of the handler. It is modelled as the reply `Thrown(...)` with the database unchanged: no 200 is sent and nothing is archived.

The handler drops only `null` components. An `undefined` component stays, as an empty string between two separators (`UndefinedLine2IsKept`, `MissingAddress`).

## Model

| member | source | states |
|---|---|---|
| Store.Lookup | actions/get-total-revenue.ts:15-21 | the product row found for an id has that id and is in the table; no row is found exactly when no product has the id |
| Store.PriceOf | actions/get-total-revenue.ts:30 | the price read for a line item is the price of a product row with that id |
| Store.PaidOrders | actions/get-total-revenue.ts:8-13 | an order is selected if and only if it is in the table, belongs to the store and is paid; no more rows than the table |
| Store.PaidOrdersAppend | actions/get-graph-revenue.ts:13-17 | the paid-orders filter distributes over concatenation of tables |
| Store.Archive | app/api/webhook/route.ts:74-76 | one product row after archiving: the same id, store and price; archived exactly when it already was or its id is listed |
| Store.ArchiveAll | app/api/webhook/route.ts:68-77 | same number of products; each product is archived if its id is listed, whatever its store, and otherwise left exactly as it was |
| Store.ArchiveAllSamePrices | app/api/webhook/route.ts:74-76 | archiving changes no product id and no price |
| Store.LookupSamePrices | app/api/webhook/route.ts:74-76 | two catalogs with the same ids and prices resolve every id alike and to the same price |
| TotalRevenue.OrderRevenue | actions/get-total-revenue.ts:27-31 | an order's sum is non-negative and is the item's price for a one-item order |
| TotalRevenue.ItemAtMostOrderRevenue | actions/get-total-revenue.ts:27-31 | an order's sum is at least the price of every line item in it |
| TotalRevenue.RevenueOf | actions/get-total-revenue.ts:25-35 | the sum over a list of orders is non-negative |
| TotalRevenue.GetTotalRevenue | actions/get-total-revenue.ts:8-35 | the total revenue of a store is non-negative |
| TotalRevenue.OrderRevenueAppend | actions/get-total-revenue.ts:27-31 | the sum over two lists of line items combined is the sum of their sums |
| TotalRevenue.DuplicatedItems | actions/get-graph-revenue.ts:33-37 | each line item counts once: listing the same items twice doubles the order's revenue |
| TotalRevenue.RevenueAppend | actions/get-total-revenue.ts:25-35 | the revenue of two lists of orders combined is the sum of their revenues |
| TotalRevenue.RevenueIsFlatSum | actions/get-total-revenue.ts:25-35 | the nested reduce equals one flat sum over all line items of all orders |
| TotalRevenue.TotalRevenueIsFlatSum | actions/get-total-revenue.ts:25-35 | a store's total is the flat sum of the prices of all line items of its paid orders |
| TotalRevenue.TotalRevenueAppend | actions/get-total-revenue.ts:8-35 | a new order row raises the total by its revenue exactly when it is a paid order of the store, and otherwise leaves it unchanged |
| TotalRevenue.NoPaidOrders | actions/get-total-revenue.ts:25-35 | with no paid order of the store the total is 0 |
| TotalRevenue.RevenueRemoveAt | actions/get-total-revenue.ts:25-35 | the revenue of a list is the revenue without one order plus that order's revenue |
| TotalRevenue.RevenuePermutation | actions/get-total-revenue.ts:25-35 | the revenue does not depend on the order in which the orders are listed (any permutation gives the same sum) |
| TotalRevenue.OrderAtMostRevenue | actions/get-total-revenue.ts:27-34 | every order's revenue is at most the revenue of any list containing it |
| TotalRevenue.PaidOrderAtMostTotal | actions/get-total-revenue.ts:27-34 | the total is at least the revenue of any single paid order of the store |
| TotalRevenue.OrderRevenueSamePrices | actions/get-total-revenue.ts:30 | an order's revenue depends only on the products' ids and prices |
| TotalRevenue.RevenueSamePrices | actions/get-total-revenue.ts:30 | a list's revenue depends only on the products' ids and prices |
| TotalRevenue.TotalRevenueIgnoresArchived | actions/get-total-revenue.ts:30 | archiving any products leaves every store's total unchanged: archived prices are still summed |
| TotalRevenue.TotalRevenueSplit | actions/get-total-revenue.ts:8-35 | the total of a table is the contribution of one row plus the totals of the rows before and after it |
| TotalRevenue.TotalRevenueUpdate | actions/get-total-revenue.ts:8-35 | replacing one order row changes the total by the new row's contribution minus the old row's |
| GraphRevenue.MonthRevenue | actions/get-graph-revenue.ts:31-41 | a month's bucket is non-negative |
| GraphRevenue.MonthAtMostRevenue | actions/get-graph-revenue.ts:31-41 | no month's bucket exceeds the revenue of all the orders |
| GraphRevenue.OrdersInMonth | actions/get-graph-revenue.ts:32 | an order is in a month's list if and only if it is in the input and was created in that month, in any year |
| GraphRevenue.MonthRevenueIsRevenueOfMonth | actions/get-graph-revenue.ts:31-41 | a month's bucket is the revenue of exactly the orders created in that month |
| GraphRevenue.EmptyMonthIsZero | actions/get-graph-revenue.ts:44-57 | a month in which no order was created has total 0 |
| GraphRevenue.YearIsIgnored | actions/get-graph-revenue.ts:32 | moving an order to another year changes no bucket |
| GraphRevenue.MonthsSumAppend | actions/get-graph-revenue.ts:40 | one more order adds its revenue to the first k buckets exactly when its month is below k |
| GraphRevenue.MonthsPartitionRevenue | actions/get-graph-revenue.ts:31-41 | the twelve buckets add up to the revenue of all the orders |
| GraphRevenue.SumTotalsIsMonthsSum | actions/get-graph-revenue.ts:60-62 | a series whose entries are the buckets sums to the sum of the buckets |
| GraphRevenue.FillGraphData | actions/get-graph-revenue.ts:44-62 | twelve entries named Jan..Dec in calendar order; each total is the dictionary's value for its month, or 0 when the month is not a key |
| GraphRevenue.GetGraphRevenue | actions/get-graph-revenue.ts:11-66 | twelve entries named Jan..Dec; entry m's total is the revenue of the store's paid orders created in month m; the totals sum to `getTotalRevenue` of the same store and state |
| SalesCount.GetSalesCount | actions/get-sales-count.ts:10-15 | the count of paid orders of the store is at most the number of the store's orders, which is at most the number of orders |
| SalesCount.SalesCountIsPaidOrders | actions/get-sales-count.ts:10-15 | the count equals the number of orders that the revenue queries sum over |
| SalesCount.SalesCountIsCardinality | actions/get-sales-count.ts:10-15 | under unique ids the count is the number of distinct paid orders of the store |
| SalesCount.SalesCountUpdate | actions/get-sales-count.ts:10-15 | replacing one order row changes the count by the difference of the two rows' memberships in the filter |
| StockCount.GetStockCount | actions/get-stock-count.ts:8-15 | the count of unarchived products of the store is at most the number of the store's products, which is at most the number of products |
| StockCount.StockCountIsCardinality | actions/get-stock-count.ts:8-15 | under unique ids the count is the number of distinct unarchived products of the store |
| StockCount.StockCountAfterArchive | actions/get-stock-count.ts:8-15 | archiving a list of ids lowers the count by exactly the number of distinct listed ids of unarchived products of the store |
| StockCount.ArchiveNeverIncreasesStock | actions/get-stock-count.ts:13 | archiving never raises the count |
| Webhook.Components | app/api/webhook/route.ts:34-44 | six components; with no address all six are `undefined` |
| Webhook.DropNulls | app/api/webhook/route.ts:45 | the filtered array is no longer than the input |
| Webhook.DropNullsCounts | app/api/webhook/route.ts:45 | the filter keeps every non-null component as often as it occurs and no `null` |
| Webhook.DropNullsAppend | app/api/webhook/route.ts:45 | the filter keeps the order: it distributes over concatenation |
| Webhook.DropNullsKeepsNonNull | app/api/webhook/route.ts:45 | an array without `null` passes the filter unchanged |
| Webhook.DropNullsOfNulls | app/api/webhook/route.ts:45 | an array of `null`s filters to the empty array |
| Webhook.Render | app/api/webhook/route.ts:45 | `join` renders a string as itself and `null` or `undefined` as the empty string |
| Webhook.Join | app/api/webhook/route.ts:45 | joining no elements gives ""; joining one element gives its rendering (with `JoinAppend` this fixes `join` for every length); joining n elements holds at least n - 1 separators' worth of characters |
| Webhook.JoinAppend | app/api/webhook/route.ts:45 | joining two non-empty arrays puts exactly one separator between their joins |
| Webhook.JoinSix | app/api/webhook/route.ts:45 | six elements join as their renderings with five separators |
| Webhook.AddressString | app/api/webhook/route.ts:37-45 | with no `null` component the string is the six components in order line1, line2, city, state, postal code, country, joined by ", ", with `undefined` rendered empty; with only `null` components it is "" |
| Webhook.MissingAddress | app/api/webhook/route.ts:34-45 | a session without an address gives ", , , , , " |
| Webhook.AllNullAddress | app/api/webhook/route.ts:37-45 | six `null` components give the empty string |
| Webhook.NullLine2IsDropped | app/api/webhook/route.ts:37-45 | a `null` component vanishes with its separator |
| Webhook.UndefinedLine2IsKept | app/api/webhook/route.ts:37-45 | an `undefined` component stays as an empty string between two separators |
| Webhook.PhoneString | app/api/webhook/route.ts:57 | the phone is the session's phone when it is a non-empty string, and "" when it is `null`, `undefined` or empty |
| Webhook.PaidOrder | app/api/webhook/route.ts:54-58 | the updated order is paid and carries the session's address string and phone; its id, store, creation date and line items are unchanged |
| Webhook.FindOrder | app/api/webhook/route.ts:50-53 | the row found has the id and no earlier row has it; nothing is found exactly when no row has the id |
| Webhook.Settle | app/api/webhook/route.ts:11-82 | a failed signature check gives 400 and no change; any other event type gives 200 and no change; a missing order id or an unknown order throws and changes nothing; only 200 replies change the database |
| Webhook.FindsTheOrder | app/api/webhook/route.ts:50-53 | under unique ids the update selects the order with the session's id |
| Webhook.SettleCompleted | app/api/webhook/route.ts:50-77 | after a completed event the order is paid with the session's address string and phone; its other fields and every other order are unchanged; every product it references is archived, whatever its store, and every other product field is unchanged |
| Webhook.FindOrderAfterUpdate | app/api/webhook/route.ts:50-53 | rewriting the selected order without changing its id selects it again |
| Webhook.ArchiveAllIdempotent | app/api/webhook/route.ts:68-77 | archiving the same products twice is the same as archiving them once |
| Webhook.SettleIdempotent | app/api/webhook/route.ts:50-77 | a redelivered event gives the same reply and leaves the same database as the first delivery, for every event |
| Webhook.UpdateKeepsWellFormed | app/api/webhook/route.ts:50-77 | rewriting an order without changing its id or items, and archiving products, keeps unique ids and resolving line items |
| Webhook.SettlePreservesWellFormed | app/api/webhook/route.ts:50-77 | every event keeps unique ids and resolving line items |
| Webhook.SettleSalesCount | app/api/webhook/route.ts:55 | settling an unpaid order of the store raises its sales count by one; an already paid order, or one of another store, leaves it unchanged |
| Webhook.SettleStockCount | app/api/webhook/route.ts:68-77 | settling lowers the stock count by the number of distinct referenced products of the store that were not archived |
| Webhook.SettleNeverIncreasesStock | app/api/webhook/route.ts:75 | no event raises the stock count |
| Webhook.SettleTwiceKeepsCounts | app/api/webhook/route.ts:50-77 | a redelivered event changes neither the sales count nor the stock count |
| Webhook.SettleTotalRevenue | app/api/webhook/route.ts:50-77 | settling an unpaid order of the store adds that order's revenue to the store's total; otherwise the total is unchanged |
| Webhook.Database.HandleWebhook | app/api/webhook/route.ts:11-82 | the reply and the updated tables are exactly those of `Settle` applied to the tables before the call, and the database guarantees still hold |

## Left out

- The signature check (`stripe.webhooks.constructEvent`) is a keyed hash computed by a foreign library. The model takes its outcome as the boolean `sigOk`, and its error message text is not modelled.
- Reading the raw body and the signature header, and building the `NextResponse`, are HTTP details. A reply is a status code or a thrown failure, and a thrown failure stands for the server error the framework sends.
- Prisma queries, `include` and the two writes are in-memory table updates done in sequence. Atomicity and concurrent deliveries are not modelled.
- `Decimal.toNumber()` and floating-point accumulation of prices are not modelled. Prices are exact natural numbers of minor units, so rounding error does not exist in the model.
- `Date.getMonth()` and time zones are not modelled. An order's creation date is given as a year and a month in 0..11.
- `parseInt(month)` on the dictionary's keys is the identity here: the keys are the months themselves.
- Line items are product ids with quantity one. The checkout route that creates orders and line items is not part of this model. Its guarantee that every item references an existing product is the `Resolves` part of `WellFormed`, which the revenue functions require.
- Store.Lookup: the first product row with an id is taken. Under the unique ids of `WellFormed` this is the only one.
- `getSalesCount` never reads products and `getStockCount` never reads orders. This holds by the signatures of `GetSalesCount` and `GetStockCount`, so no lemma states it.
- Webhook.DropNulls: its own contract states only the length bound. The filter's full meaning is stated by `DropNullsCounts`, `DropNullsAppend`, `DropNullsKeepsNonNull` and `DropNullsOfNulls`.
- The image upload and chart components, the authentication middleware and the store, catalog and settings routes hold no settlement or analytics logic, so they are not part of this model.
